/** The cursor of the decoder, the flat list of leaves and the declared signature. */
module CodecAlignment {
  import opened CodecModel
  import opened CodecRoundTrip

  // ---------- the decoder reads leaf by leaf ----------

  function DecodeOne(leaf: Node, v: Variant): Decoded<Node>
    requires !leaf.Complex?
  {
    if leaf.Leaf? then DecodeLeaf(leaf, v) else DecodeArray(leaf, v)
  }

  predicate NoComplex(leaves: seq<Node>) {
    forall k :: 0 <= k < |leaves| ==> !leaves[k].Complex?
  }

  /** Reading a flat list of leaves, each from its own position. */
  function ReadFlat(leaves: seq<Node>, vs: seq<Variant>, pos: nat): Decoded<seq<Node>>
    requires NoComplex(leaves)
  {
    if leaves == [] then Good([])
    else
      var n := |leaves| - 1;
      Both(ReadFlat(leaves[..n], vs, pos), ReadOne(leaves[n], vs, pos + n))
  }

  function ReadOne(leaf: Node, vs: seq<Variant>, pos: nat): Decoded<seq<Node>>
    requires !leaf.Complex?
  {
    if pos >= |vs| then Bad(Missing)
    else match DecodeOne(leaf, vs[pos]) case Bad(e) => Bad(e) case Good(r) => Good([r])
  }

  /** One result behind the other; the first fault counts. */
  function Both(x: Decoded<seq<Node>>, y: Decoded<seq<Node>>): Decoded<seq<Node>> {
    if x.Bad? then x else if y.Bad? then y else Good(x.value + y.value)
  }

  /** Every leaf has a variant that it can be read from. */
  predicate Readable(leaves: seq<Node>, vs: seq<Variant>, pos: nat)
    requires NoComplex(leaves)
  {
    forall k :: 0 <= k < |leaves| ==> ReadOne(leaves[k], vs, pos + k).Good?
  }

  lemma {:induction false} ReadFlatMeans(leaves: seq<Node>, vs: seq<Variant>, pos: nat)
    requires NoComplex(leaves)
    ensures ReadFlat(leaves, vs, pos).Good? <==> Readable(leaves, vs, pos)
    ensures ReadFlat(leaves, vs, pos).Good? ==>
      |ReadFlat(leaves, vs, pos).value| == |leaves|
      && forall k :: 0 <= k < |leaves| ==> ReadOne(leaves[k], vs, pos + k) == Good([ReadFlat(leaves, vs, pos).value[k]])
  {
    if leaves != [] {
      var n := |leaves| - 1;
      ReadFlatMeans(leaves[..n], vs, pos);
    }
  }

  /** `r` is `n` with other values in its leaves. */
  predicate SameTree(n: Node, r: Node) {
    match n
    case Leaf(name, k, _) => r.Leaf? && r.name == name && r.kind == k
    case Complex(name, children) =>
      r.Complex? && r.name == name && SameTrees(children, r.children)
    case Arr(name, proto, _) => r.Arr? && r.name == name && r.proto == proto
  }

  predicate SameTrees(ns: seq<Node>, rs: seq<Node>) {
    |rs| == |ns| && forall i :: 0 <= i < |ns| ==> SameTree(ns[i], rs[i])
  }

  lemma {:induction false} LeavesAreFlat(n: Node)
    ensures NoComplex(Leaves(n))
    decreases n, 1
  {
    if n.Complex? {
      AllLeavesAreFlat(n.children);
    }
  }

  lemma {:induction false} AllLeavesAreFlat(ns: seq<Node>)
    ensures NoComplex(LeavesOfAll(ns))
    decreases ns, 0
  {
    if ns != [] {
      AllLeavesAreFlat(ns[..|ns| - 1]);
      LeavesAreFlat(ns[|ns| - 1]);
    }
  }

  lemma ReadFlatLast(leaves: seq<Node>, vs: seq<Variant>, pos: nat)
    requires NoComplex(leaves) && leaves != []
    ensures var n := |leaves| - 1;
      ReadFlat(leaves, vs, pos) == Both(ReadFlat(leaves[..n], vs, pos), ReadOne(leaves[n], vs, pos + n))
  {
  }

  lemma {:induction false} ReadFlatConcat(a: seq<Node>, b: seq<Node>, vs: seq<Variant>, pos: nat)
    requires NoComplex(a) && NoComplex(b)
    ensures ReadFlat(a + b, vs, pos) == Both(ReadFlat(a, vs, pos), ReadFlat(b, vs, pos + |a|))
    decreases b
  {
    if b == [] {
      assert a + b == a;
      BothNothing(ReadFlat(a, vs, pos));
    } else {
      var n := |b| - 1;
      ReadFlatConcat(a, b[..n], vs, pos);
      SnocOfConcat(a, b);
      ConcatLast(a + b, b, vs, pos, |a|, ReadFlat(a, vs, pos));
    }
  }

  lemma BothNothing(x: Decoded<seq<Node>>)
    ensures Both(x, Good([])) == x
  {
    assert x.Good? ==> x.value + [] == x.value;
  }

  lemma SnocOfConcat(a: seq<Node>, b: seq<Node>)
    requires b != [] && NoComplex(a) && NoComplex(b)
    ensures NoComplex(a + b) && (a + b)[..|a| + |b| - 1] == a + b[..|b| - 1] && (a + b)[|a| + |b| - 1] == b[|b| - 1]
  {
  }

  /** The last leaf of `b`, which is also that of the longer list `c`. */
  lemma ConcatLast(c: seq<Node>, b: seq<Node>, vs: seq<Variant>, pos: nat, k: nat, x: Decoded<seq<Node>>)
    requires b != [] && NoComplex(b) && NoComplex(c) && |c| == k + |b| && c[|c| - 1] == b[|b| - 1]
    requires ReadFlat(c[..|c| - 1], vs, pos) == Both(x, ReadFlat(b[..|b| - 1], vs, pos + k))
    ensures ReadFlat(c, vs, pos) == Both(x, ReadFlat(b, vs, pos + k))
  {
    var n := |b| - 1;
    ReadFlatLast(c, vs, pos);
    ReadFlatLast(b, vs, pos + k);
    BothAssociates(x, ReadFlat(b[..n], vs, pos + k), ReadOne(b[n], vs, pos + k + n));
  }

  lemma BothAssociates(x: Decoded<seq<Node>>, y: Decoded<seq<Node>>, z: Decoded<seq<Node>>)
    ensures Both(Both(x, y), z) == Both(x, Both(y, z))
  {
    if x.Good? && y.Good? && z.Good? {
      assert x.value + y.value + z.value == x.value + (y.value + z.value);
    }
  }

  lemma ReadSingle(n: Node, vs: seq<Variant>, pos: nat)
    requires !n.Complex?
    ensures ReadFlat([n], vs, pos) == ReadOne(n, vs, pos)
  {
    assert [n][..0] == [] && ReadFlat([], vs, pos) == Good([]);
    if ReadOne(n, vs, pos).Good? {
      assert [] + ReadOne(n, vs, pos).value == ReadOne(n, vs, pos).value;
    }
  }

  lemma KeepsKind(n: Node, v: Variant)
    requires !n.Complex? && DecodeOne(n, v).Good?
    ensures SameTree(n, DecodeOne(n, v).value)
  {
  }

  /** What the recursive decoder gives for `n`, against the flat one that reads up
      to `end`. */
  predicate Agrees(n: Node, d: Decoded<(Node, nat)>, flat: Decoded<seq<Node>>, end: nat) {
    match d
    case Bad(e) => flat == Bad(e)
    case Good((r, next)) => next == end && SameTree(n, r) && flat == Good(Leaves(r))
  }

  predicate AllAgree(ns: seq<Node>, d: Decoded<(seq<Node>, nat)>, flat: Decoded<seq<Node>>, end: nat) {
    match d
    case Bad(e) => flat == Bad(e)
    case Good((rs, next)) => next == end && SameTrees(ns, rs) && flat == Good(LeavesOfAll(rs))
  }

  /** The recursive decoder is the flat one: it advances by the number of leaves,
      gives each leaf what stands at its own position, keeps the tree, and fails
      just when the flat one fails, with the same fault. */
  lemma {:induction false} Aligned(n: Node, vs: seq<Variant>, pos: nat)
    ensures NoComplex(Leaves(n))
    ensures Agrees(n, Decode(n, vs, pos), ReadFlat(Leaves(n), vs, pos), pos + |Leaves(n)|)
    decreases n, 1
  {
    LeavesAreFlat(n);
    if n.Complex? {
      AllAligned(n.children, vs, pos);
    } else {
      ReadSingle(n, vs, pos);
      if pos < |vs| && DecodeOne(n, vs[pos]).Good? {
        KeepsKind(n, vs[pos]);
      }
    }
  }

  lemma {:induction false} AllAligned(ns: seq<Node>, vs: seq<Variant>, pos: nat)
    ensures NoComplex(LeavesOfAll(ns))
    ensures AllAgree(ns, DecodeAll(ns, vs, pos), ReadFlat(LeavesOfAll(ns), vs, pos), pos + |LeavesOfAll(ns)|)
    decreases ns, 0
  {
    if ns == [] {
      NoneAligned(vs, pos);
    } else {
      var front, last := ns[..|ns| - 1], ns[|ns| - 1];
      AllAligned(front, vs, pos);
      Aligned(last, vs, pos + |LeavesOfAll(front)|);
      LeavesSnoc(ns);
      LastAligned(ns, vs, pos, front, last, LeavesOfAll(front), Leaves(last), LeavesOfAll(ns));
    }
  }

  lemma NoneAligned(vs: seq<Variant>, pos: nat)
    ensures LeavesOfAll([]) == [] && AllAgree([], DecodeAll([], vs, pos), ReadFlat([], vs, pos), pos)
  {
  }

  lemma LastAligned(ns: seq<Node>, vs: seq<Variant>, pos: nat, front: seq<Node>, last: Node,
                    x: seq<Node>, y: seq<Node>, all: seq<Node>)
    requires ns != [] && front == ns[..|ns| - 1] && last == ns[|ns| - 1]
    requires all == x + y && NoComplex(x) && NoComplex(y)
    requires AllAgree(front, DecodeAll(front, vs, pos), ReadFlat(x, vs, pos), pos + |x|)
    requires Agrees(last, Decode(last, vs, pos + |x|), ReadFlat(y, vs, pos + |x|), pos + |x| + |y|)
    ensures NoComplex(all) && AllAgree(ns, DecodeAll(ns, vs, pos), ReadFlat(all, vs, pos), pos + |all|)
  {
    var mid := pos + |x|;
    var d, e := DecodeAll(front, vs, pos), Decode(last, vs, mid);
    LastAgrees(front, last, d, e, ReadFlat(x, vs, pos), ReadFlat(y, vs, mid), mid, mid + |y|);
    ReadFlatSplit(all, x, y, vs, pos);
    DecodeSnoc(ns, vs, pos, front, last, d, mid);
  }

  function Then(d: Decoded<(seq<Node>, nat)>, last: Decoded<(Node, nat)>): Decoded<(seq<Node>, nat)> {
    if d.Bad? then d else if last.Bad? then Bad(last.fault) else Good((d.value.0 + [last.value.0], last.value.1))
  }

  lemma DecodeSnoc(ns: seq<Node>, vs: seq<Variant>, pos: nat, front: seq<Node>, last: Node,
                   d: Decoded<(seq<Node>, nat)>, mid: nat)
    requires ns != [] && front == ns[..|ns| - 1] && last == ns[|ns| - 1]
    requires d == DecodeAll(front, vs, pos) && (d.Good? ==> d.value.1 == mid)
    ensures ns == front + [last] && DecodeAll(ns, vs, pos) == Then(d, Decode(last, vs, mid))
  {
  }

  lemma LastAgrees(front: seq<Node>, last: Node, d: Decoded<(seq<Node>, nat)>, e: Decoded<(Node, nat)>,
                   flat: Decoded<seq<Node>>, flatLast: Decoded<seq<Node>>, mid: nat, end: nat)
    requires AllAgree(front, d, flat, mid) && Agrees(last, e, flatLast, end)
    ensures AllAgree(front + [last], Then(d, e), Both(flat, flatLast), end)
  {
    if d.Good? && e.Good? {
      SnocAligned(front, last, d.value.0, e.value.0);
    }
  }

  lemma LeavesSnoc(ns: seq<Node>)
    requires ns != []
    ensures LeavesOfAll(ns) == LeavesOfAll(ns[..|ns| - 1]) + Leaves(ns[|ns| - 1])
  {
  }

  lemma ReadFlatSplit(all: seq<Node>, x: seq<Node>, y: seq<Node>, vs: seq<Variant>, pos: nat)
    requires all == x + y && NoComplex(x) && NoComplex(y)
    ensures NoComplex(all) && ReadFlat(all, vs, pos) == Both(ReadFlat(x, vs, pos), ReadFlat(y, vs, pos + |x|))
  {
    ReadFlatConcat(x, y, vs, pos);
  }

  lemma SnocAligned(front: seq<Node>, last: Node, rs: seq<Node>, r: Node)
    requires SameTrees(front, rs) && SameTree(last, r)
    ensures LeavesOfAll(rs + [r]) == LeavesOfAll(rs) + Leaves(r)
    ensures SameTrees(front + [last], rs + [r])
  {
    assert (rs + [r])[..|rs|] == rs;
  }

  /** A scalar or array of the wrong type, or an empty variant, leaves its own leaf
      unchanged, and every other leaf gets what it would have got. */
  lemma WrongTypeIsLocal(n: Node, vs: seq<Variant>, pos: nat, k: nat, w: Variant)
    requires Decode(n, vs, pos).Good? && k < |Leaves(n)| && pos + k < |vs|
    requires Leaves(n)[k].Leaf? && (w.Null? || w.tag != ScalarReadType(Leaves(n)[k].kind))
    ensures var r, r' := Decode(n, vs, pos), Decode(n, vs[pos + k := w], pos);
      r'.Good? && r'.value.1 == r.value.1 && |Leaves(r.value.0)| == |Leaves(n)|
      && Leaves(r'.value.0) == Leaves(r.value.0)[k := Leaves(n)[k]]
  {
    Aligned(n, vs, pos);
    Aligned(n, vs[pos + k := w], pos);
    ReplacedIsLocal(Leaves(n), vs, pos, k, w);
  }

  lemma ReplacedIsLocal(leaves: seq<Node>, vs: seq<Variant>, pos: nat, k: nat, w: Variant)
    requires NoComplex(leaves) && ReadFlat(leaves, vs, pos).Good? && k < |leaves| && pos + k < |vs|
    requires leaves[k].Leaf? && (w.Null? || w.tag != ScalarReadType(leaves[k].kind))
    ensures var r, r' := ReadFlat(leaves, vs, pos), ReadFlat(leaves, vs[pos + k := w], pos);
      r'.Good? && |r.value| == |leaves| && r'.value == r.value[k := leaves[k]]
  {
    var vs' := vs[pos + k := w];
    ReadFlatMeans(leaves, vs, pos);
    ReadFlatMeans(leaves, vs', pos);
    forall j | 0 <= j < |leaves|
      ensures ReadOne(leaves[j], vs', pos + j) == if j == k then Good([leaves[k]]) else ReadOne(leaves[j], vs, pos + j)
    {
    }
    assert Readable(leaves, vs', pos);
    var r, r' := ReadFlat(leaves, vs, pos).value, ReadFlat(leaves, vs', pos).value;
    forall j | 0 <= j < |leaves| ensures r'[j] == r[k := leaves[k]][j] {
      assert ReadOne(leaves[j], vs', pos + j) == Good([r'[j]]);
      assert ReadOne(leaves[j], vs, pos + j) == Good([r[j]]);
    }
  }

  // ---------- the declared signature ----------

  /** A variant of the declared type and rank. */
  predicate Describes(a: Argument, v: Variant) {
    if a.rank == SCALAR_RANK then v.Scalar? && v.tag == a.dataType
    else a.rank == ARRAY_RANK && v.Array? && v.tag == a.dataType && v.dims == [|v.cells|]
  }

  /** Arguments, leaves and variants match one to one. */
  predicate Matches(args: seq<Argument>, leaves: seq<Node>, vs: seq<Variant>) {
    |args| == |leaves| == |vs| &&
    forall k :: 0 <= k < |args| ==> Match(args[k], leaves[k], vs[k])
  }

  predicate Match(a: Argument, leaf: Node, v: Variant) {
    !leaf.Complex? && a.name == leaf.name && (a.rank == ARRAY_RANK <==> leaf.Arr?) && Describes(a, v)
  }

  /** Whatever value is sent, the variants have the declared types in the declared
      order, under the names of the flat list. */
  lemma {:induction false} SignatureAgrees(t: Node, v: Node)
    requires ValueOf(t, v)
    ensures Matches(Arguments(t), Leaves(t), Encode(v))
    decreases t, 1
  {
    match t
    case Leaf(_, k, _) => DeclaredTypesAgree(t);
    case Complex(_, children) => SignaturesAgree(children, v.children);
    case Arr(_, proto, _) => DeclaredTypesAgree(proto);
  }

  lemma {:induction false} SignaturesAgree(ts: seq<Node>, vs: seq<Node>)
    requires ValuesOf(ts, vs)
    ensures Matches(ArgumentsOfAll(ts), LeavesOfAll(ts), EncodeAll(vs))
    decreases ts, 0
  {
    if ts != [] {
      assert ValueOf(ts[|ts| - 1], vs[|vs| - 1]);
      SignaturesAgree(ts[..|ts| - 1], vs[..|vs| - 1]);
      SignatureAgrees(ts[|ts| - 1], vs[|vs| - 1]);
    }
  }

  lemma DeclaredTypesAgree(proto: Node)
    ensures IndexedType(proto) == ElementType(proto)
    ensures proto.Leaf? ==> ArgumentType(proto.kind) == ScalarType(proto.kind)
  {
    if proto.Leaf? {
      match proto.kind
      case _ =>
    }
  }
}
