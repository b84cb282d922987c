/** Communication objects, OPC UA variants, and the conversion between them.

    A communication object is a tree: complex types with named elements, arrays,
    and primitive leaves. It is sent as a flat list of variants, one per leaf and
    one per array, and read back with a cursor that moves through that list. */
module CodecModel {

  /** The C++ types of primitive elements. */
  datatype Kind =
    | Bool | Int8 | Int16 | Int32 | Int64 | UInt8 | UInt16 | UInt32 | UInt64 | Float | Double | String

  /** Index of a type in open62541's table of OPC UA types. */
  newtype TypeIndex = i: int | 0 <= i

  const BOOLEAN: TypeIndex := 0
  const BYTE: TypeIndex := 2
  const INT16: TypeIndex := 3
  const UINT16: TypeIndex := 4
  const INT32: TypeIndex := 5
  const UINT32: TypeIndex := 6
  const INT64: TypeIndex := 7
  const UINT64: TypeIndex := 8
  const FLOAT: TypeIndex := 9
  const DOUBLE: TypeIndex := 10
  const STRING: TypeIndex := 11
  const VARIANT: TypeIndex := 23

  /** A stored value. Floating-point values are only copied, so `Bits` stands for
      them; `Inner` is a variant stored in a variant. */
  datatype Cell = Flag(b: bool) | Num(n: int) | Bits(x: int) | Text(s: string) | Inner(v: Variant)

  datatype Variant =
    | Null
    | Scalar(tag: TypeIndex, cell: Cell)
    | Array(tag: TypeIndex, cells: seq<Cell>, dims: seq<nat>)

  /** An element of a communication object. `proto` is what an array's
      getNewElement describes: a default-constructed element. */
  datatype Node =
    | Leaf(name: string, kind: Kind, value: Cell)
    | Complex(name: string, children: seq<Node>)
    | Arr(name: string, proto: Node, items: seq<Node>)

  datatype Fault = Missing | WrongElementType | Unreadable

  datatype Decoded<+T> = Good(value: T) | Bad(fault: Fault)

  const TWO31: int := 0x8000_0000
  const TWO32: int := 0x1_0000_0000
  const TWO63: int := 0x8000_0000_0000_0000

  // ---------- storing and loading one value ----------

  /** Type of the variant that a scalar is sent in. */
  function ScalarType(k: Kind): TypeIndex {
    match k
    case Bool => BOOLEAN
    case Int8 => BYTE
    case Int16 => INT16
    case Int32 => INT32
    case Int64 => INT64
    case UInt8 => BYTE
    case UInt16 => UINT16
    case UInt32 => UINT32
    case UInt64 => UINT64
    case Float => FLOAT
    case Double => DOUBLE
    case String => STRING
  }

  /** Type of variant that a scalar is read from. */
  function ScalarReadType(k: Kind): TypeIndex {
    match k
    case Bool => BOOLEAN
    case Int8 => BYTE
    case Int16 => INT16
    case Int32 => INT32
    case Int64 => INT64
    case UInt8 => BYTE
    case UInt16 => UINT16
    case UInt32 => UINT32
    case UInt64 => UINT64
    case Float => FLOAT
    case Double => DOUBLE
    case String => STRING
  }

  /** A signed byte is stored as an unsigned one. */
  function AsByte(c: Cell): Cell { if c.Num? then Num(c.n % 256) else c }

  function FromByte(c: Cell): Cell { if c.Num? then Num(if c.n % 256 < 128 then c.n % 256 else c.n % 256 - 256) else c }

  function StoreScalar(k: Kind, c: Cell): Cell { if k == Int8 then AsByte(c) else c }

  /** A scalar uint64 is read through a pointer to a 32-bit integer, which on the
      little-endian targets is its low half. */
  function LoadScalar(k: Kind, c: Cell): Cell {
    if k == Int8 then FromByte(c)
    else if k == UInt64 && c.Num? then Num(c.n % TWO32)
    else c
  }

  /** Type of the array that elements like `proto` are sent in. */
  function ElementType(proto: Node): TypeIndex {
    match proto
    case Complex(_, _) => VARIANT
    case Arr(_, _, _) => VARIANT
    case Leaf(_, k, _) =>
      match k
      case Bool => BOOLEAN
      case Int8 => BYTE
      case Int16 => INT16
      case Int32 => INT32
      case Int64 => INT64
      case UInt8 => BYTE
      case UInt16 => UINT16
      case UInt32 => UINT32
      case UInt64 => UINT64
      case Float => FLOAT
      case Double => DOUBLE
      case String => STRING
  }

  /** Type of array that elements of the kind are read from. */
  function ElementReadType(k: Kind): TypeIndex {
    match k
    case Bool => BOOLEAN
    case Int8 => BYTE
    case Int16 => INT16
    case Int32 => INT32
    case Int64 => INT64
    case UInt8 => BYTE
    case UInt16 => UINT16
    case UInt32 => UINT32
    case UInt64 => UINT64
    case Float => FLOAT
    case Double => DOUBLE
    case String => STRING
  }

  /** The text up to its first NUL. */
  function CString(s: string): (r: string)
    ensures r <= s && '\0' !in r
    ensures '\0' !in s ==> r == s
  {
    if s == [] || s[0] == '\0' then [] else [s[0]] + CString(s[1..])
  }

  /** A string in an array goes through a C string. */
  function StoreElement(k: Kind, c: Cell): Cell {
    if k == Int8 then AsByte(c)
    else if k == String && c.Text? then Text(CString(c.s))
    else c
  }

  /** The halves of a 64-bit integer, as signed 32-bit integers. */
  function LowHalf(n: int): int { if n % TWO32 < TWO31 then n % TWO32 else n % TWO32 - TWO32 }

  function HighHalf(n: int): int { n / TWO32 }

  /** An int64 array is read as an array of 32-bit integers: element i is one half
      of the stored element i / 2. */
  function LoadElement(k: Kind, cells: seq<Cell>, i: nat): Cell
    requires i < |cells|
  {
    if k == Int64 then
      var c := cells[i / 2];
      if c.Num? then Num(if i % 2 == 0 then LowHalf(c.n) else HighHalf(c.n)) else c
    else if k == Int8 then FromByte(cells[i])
    else cells[i]
  }

  // ---------- encoding ----------

  function Wrap(vs: seq<Variant>): (r: seq<Cell>)
    ensures |r| == |vs| && forall i :: 0 <= i < |r| ==> r[i] == Inner(vs[i])
  {
    seq(|vs|, i requires 0 <= i < |vs| => Inner(vs[i]))
  }

  function Encode(n: Node): seq<Variant>
    decreases n, 1
  {
    match n
    case Leaf(_, k, c) => [Scalar(ScalarType(k), StoreScalar(k, c))]
    case Complex(_, children) => EncodeAll(children)
    case Arr(_, proto, items) => [EncodeArray(proto, items)]
  }

  function EncodeAll(ns: seq<Node>): seq<Variant>
    decreases ns, 0
  {
    if ns == [] then [] else EncodeAll(ns[..|ns| - 1]) + Encode(ns[|ns| - 1])
  }

  function EncodeArray(proto: Node, items: seq<Node>): Variant
    decreases items, 1
  {
    Array(ElementType(proto), EncodeItems(items), [|items|])
  }

  function EncodeItems(items: seq<Node>): (r: seq<Cell>)
    ensures |r| == |items|
    decreases items, 0
  {
    if items == [] then [] else EncodeItems(items[..|items| - 1]) + [EncodeItem(items[|items| - 1])]
  }

  function EncodeItem(item: Node): Cell
    decreases item, 2
  {
    match item
    case Leaf(_, k, c) => StoreElement(k, c)
    case Complex(_, _) => var vs := Encode(item); Inner(Array(VARIANT, Wrap(vs), [|vs|]))
    case Arr(_, proto, items) => Inner(EncodeArray(proto, items))
  }

  // ---------- decoding ----------

  function Length(v: Variant): nat { if v.Array? then |v.cells| else 0 }

  function Unwrap(cells: seq<Cell>): (r: seq<Variant>)
    ensures |r| == |cells|
  {
    seq(|cells|, i requires 0 <= i < |cells| => if cells[i].Inner? then cells[i].v else Null)
  }

  /** A scalar of another type leaves the element as it is. */
  function DecodeLeaf(n: Node, v: Variant): Decoded<Node>
    requires n.Leaf?
  {
    match v
    case Null => Good(n)
    case Scalar(tag, c) => Good(if tag == ScalarReadType(n.kind) then n.(value := LoadScalar(n.kind, c)) else n)
    case Array(tag, cells, _) =>
      if tag != ScalarReadType(n.kind) then Good(n)
      else if cells == [] then Bad(Unreadable)
      else Good(n.(value := LoadScalar(n.kind, cells[0])))
  }

  function Decode(n: Node, vs: seq<Variant>, pos: nat): Decoded<(Node, nat)>
    decreases n, 1
  {
    match n
    case Leaf(_, _, _) =>
      if pos >= |vs| then Bad(Missing)
      else (match DecodeLeaf(n, vs[pos]) case Good(r) => Good((r, pos + 1)) case Bad(e) => Bad(e))
    case Complex(_, children) =>
      (match DecodeAll(children, vs, pos)
       case Good((r, next)) => Good((n.(children := r), next))
       case Bad(e) => Bad(e))
    case Arr(_, _, _) =>
      if pos >= |vs| then Bad(Missing)
      else (match DecodeArray(n, vs[pos]) case Good(r) => Good((r, pos + 1)) case Bad(e) => Bad(e))
  }

  function DecodeAll(ns: seq<Node>, vs: seq<Variant>, pos: nat): Decoded<(seq<Node>, nat)>
    decreases ns, 0
  {
    if ns == [] then Good(([], pos))
    else
      match DecodeAll(ns[..|ns| - 1], vs, pos)
      case Bad(e) => Bad(e)
      case Good((front, mid)) =>
        match Decode(ns[|ns| - 1], vs, mid)
        case Bad(e) => Bad(e)
        case Good((last, next)) => Good((front + [last], next))
  }

  /** Decoded elements are appended to those that the array has. */
  function DecodeArray(n: Node, v: Variant): Decoded<Node>
    requires n.Arr?
    decreases n, 0
  {
    match DecodeItems(n.proto, v, Length(v))
    case Good(items) => Good(n.(items := n.items + items))
    case Bad(e) => Bad(e)
  }

  function DecodeItems(proto: Node, v: Variant, count: nat): (r: Decoded<seq<Node>>)
    requires count <= Length(v)
    ensures r.Good? ==> |r.value| == count
    decreases proto, 3, count
  {
    if count == 0 then Good([])
    else
      match DecodeItems(proto, v, count - 1)
      case Bad(e) => Bad(e)
      case Good(items) =>
        match DecodeItem(proto, v, count - 1)
        case Bad(e) => Bad(e)
        case Good(item) => Good(items + [item])
  }

  /** The variants of a complex element: the array stored at index `i`, provided
      that the first stored variant has one dimension. */
  function InnerVariants(v: Variant, i: nat): Decoded<seq<Variant>>
    requires i < Length(v)
  {
    if v.tag != VARIANT then Bad(WrongElementType)
    else if !(v.cells[0].Inner? && v.cells[0].v.Array? && |v.cells[0].v.dims| == 1) then Bad(WrongElementType)
    else if !v.cells[i].Inner? || !v.cells[i].v.Array? || v.cells[i].v.cells == [] then Good([])
    else if v.cells[i].v.tag != VARIANT then Bad(Unreadable)
    else Good(Unwrap(v.cells[i].v.cells))
  }

  function DecodeItem(proto: Node, v: Variant, i: nat): Decoded<Node>
    requires i < Length(v)
    decreases proto, 2
  {
    match proto
    case Leaf(_, k, _) =>
      if v.tag != ElementReadType(k) then Bad(WrongElementType)
      else Good(proto.(value := LoadElement(k, v.cells, i)))
    case Complex(_, _) =>
      (match InnerVariants(v, i)
       case Bad(e) => Bad(e)
       case Good(vs) => match Decode(proto, vs, 0) case Good((r, _)) => Good(r) case Bad(e) => Bad(e))
    case Arr(_, _, _) =>
      if v.tag != VARIANT then Bad(WrongElementType)
      else DecodeArray(proto, if v.cells[i].Inner? then v.cells[i].v else Null)
  }

  // ---------- the flat list of leaves ----------

  /** The primitives and arrays of a description, in order. */
  function Leaves(n: Node): seq<Node>
    decreases n, 1
  {
    if n.Complex? then LeavesOfAll(n.children) else [n]
  }

  function LeavesOfAll(ns: seq<Node>): seq<Node>
    decreases ns, 0
  {
    if ns == [] then [] else LeavesOfAll(ns[..|ns| - 1]) + Leaves(ns[|ns| - 1])
  }

  // ---------- the declared signature of a method ----------

  datatype Argument = Argument(name: string, dataType: TypeIndex, rank: int)

  const SCALAR_RANK: int := -1
  const ARRAY_RANK: int := 1

  function ArgumentType(k: Kind): TypeIndex {
    match k
    case Bool => BOOLEAN
    case Float => FLOAT
    case Double => DOUBLE
    case Int8 => BYTE
    case Int16 => INT16
    case Int32 => INT32
    case Int64 => INT64
    case UInt8 => BYTE
    case UInt16 => UINT16
    case UInt32 => UINT32
    case UInt64 => UINT64
    case String => STRING
  }

  /** Declared element type of an array of elements like `proto`. */
  function IndexedType(proto: Node): TypeIndex {
    match proto
    case Complex(_, _) => VARIANT
    case Arr(_, _, _) => VARIANT
    case Leaf(_, k, _) =>
      match k
      case Bool => BOOLEAN
      case Int8 => BYTE
      case Int16 => INT16
      case Int32 => INT32
      case Int64 => INT64
      case UInt8 => BYTE
      case UInt16 => UINT16
      case UInt32 => UINT32
      case UInt64 => UINT64
      case Float => FLOAT
      case Double => DOUBLE
      case String => STRING
  }

  function Arguments(n: Node): seq<Argument>
    decreases n, 1
  {
    match n
    case Leaf(name, k, _) => [Argument(name, ArgumentType(k), SCALAR_RANK)]
    case Complex(_, children) => ArgumentsOfAll(children)
    case Arr(name, proto, _) => [Argument(name, IndexedType(proto), ARRAY_RANK)]
  }

  function ArgumentsOfAll(ns: seq<Node>): seq<Argument>
    decreases ns, 0
  {
    if ns == [] then [] else ArgumentsOfAll(ns[..|ns| - 1]) + Arguments(ns[|ns| - 1])
  }
}
