/** From sent values to data in the buffer: notifications that come value by value,
    and notifications that do not. */
module SubscriptionRuns {
  import opened Names
  import opened CodecModel
  import opened CodecRoundTrip
  import opened SnapshotModel
  import opened Subscription

  /** The notifications of one value: one for each item, in any order, with the item's
      variant. */
  ghost predicate Block(order: seq<nat>, vs: seq<Variant>, b: seq<Notification>) {
    && |b| == |order| == |vs|
    && (forall j :: 0 <= j < |b| ==> b[j].good && b[j].id in order)
    && (forall j, k :: 0 <= j < k < |b| ==> b[j].id != b[k].id)
    && (forall i, j :: 0 <= i < |order| && 0 <= j < |b| && b[j].id == order[i] ==> b[j].value == Some(vs[i]))
  }

  ghost predicate Blocks(order: seq<nat>, snapshots: seq<seq<Variant>>, blocks: seq<seq<Notification>>) {
    |blocks| == |snapshots| && forall k :: 0 <= k < |blocks| ==> Block(order, snapshots[k], blocks[k])
  }

  function Concat(blocks: seq<seq<Notification>>): seq<Notification> {
    if blocks == [] then [] else Concat(blocks[..|blocks| - 1]) + blocks[|blocks| - 1]
  }

  // ---------- one block ----------

  function IdsOf(b: seq<Notification>): (r: seq<nat>)
    ensures |r| == |b| && forall j :: 0 <= j < |b| ==> r[j] == b[j].id
  {
    seq(|b|, j requires 0 <= j < |b| => b[j].id)
  }

  function Elements(s: seq<nat>): (r: set<nat>)
    ensures forall x :: x in r <==> x in s
  {
    set x | x in s
  }

  /** As many different items as there are: all of them. */
  lemma AllCovered(order: seq<nat>, ids: seq<nat>)
    requires Distinct(order) && Distinct(ids) && forall j :: 0 <= j < |ids| ==> ids[j] in order
    ensures |ids| == |order| ==> Elements(ids) == Elements(order)
    ensures |ids| < |order| ==> exists i :: 0 <= i < |order| && order[i] !in ids
  {
    SizeOfKeys(order, Elements(order));
    SizeOfKeys(ids, Elements(ids));
    assert Elements(ids) <= Elements(order);
    SubsetSize(Elements(ids), Elements(order));
    if |ids| < |order| {
      var x :| x in Elements(order) - Elements(ids);
      var i :| 0 <= i < |order| && order[i] == x;
      assert order[i] !in ids;
    }
  }

  lemma SubsetSize(a: set<nat>, b: set<nat>)
    requires a <= b
    ensures |a| == |b| ==> a == b
    ensures |a| < |b| ==> b - a != {}
  {
    assert b == a + (b - a);
    assert |b| == |a| + |b - a|;
  }

  /** The latest value of an item that occurs at most once. */
  lemma {:induction false} LatestInBlock(b: seq<Notification>, j: nat)
    requires j < |b| && (forall k :: 0 <= k < |b| ==> Usable(b[k]))
    requires forall k :: j < k < |b| ==> b[k].id != b[j].id
    ensures Latest(b, b[j].id) == b[j].value
  {
    if j < |b| - 1 {
      LatestInBlock(b[..|b| - 1], j);
    }
  }

  lemma {:induction false} NothingLatest(b: seq<Notification>, id: nat)
    requires forall k :: 0 <= k < |b| ==> b[k].id != id
    ensures Latest(b, id) == None
  {
    if b != [] {
      NothingLatest(b[..|b| - 1], id);
    }
  }

  lemma BlockIsUsable(order: seq<nat>, vs: seq<Variant>, b: seq<Notification>, j: nat)
    requires Block(order, vs, b) && j < |b|
    ensures Usable(b[j])
  {
    var i :| 0 <= i < |order| && order[i] == b[j].id;
  }

  /** Before its end, a block leaves an item out. */
  lemma PrefixIsIncomplete(order: seq<nat>, vs: seq<Variant>, b: seq<Notification>, n: nat)
    requires Distinct(order) && Block(order, vs, b) && n < |b|
    ensures !Complete(order, b[..n])
  {
    var ids := IdsOf(b[..n]);
    AllCovered(order, ids);
    var i :| 0 <= i < |order| && order[i] !in ids;
    forall k | 0 <= k < n ensures b[..n][k].id != order[i] {
      assert ids[k] == b[k].id;
    }
    NothingLatest(b[..n], order[i]);
  }

  /** A whole block is a snapshot of its value. */
  lemma BlockIsComplete(order: seq<nat>, vs: seq<Variant>, b: seq<Notification>)
    requires Distinct(order) && Block(order, vs, b)
    ensures Complete(order, b) && Snapshot(order, b) == vs
  {
    AllCovered(order, IdsOf(b));
    forall i | 0 <= i < |order| ensures Latest(b, order[i]) == Some(vs[i]) {
      assert order[i] in Elements(IdsOf(b));
      var j :| 0 <= j < |b| && IdsOf(b)[j] == order[i];
      forall k | 0 <= k < |b| ensures Usable(b[k]) { BlockIsUsable(order, vs, b, k); }
      LatestInBlock(b, j);
    }
  }

  /** The notifications are just enough for the snapshot. */
  ghost predicate Enough(order: seq<nat>, vs: seq<Variant>, b: seq<Notification>) {
    && b != [] && Usable(b[|b| - 1]) && b[|b| - 1].id in order
    && NoneSooner(order, b)
    && Complete(order, b) && Snapshot(order, b) == vs
  }

  ghost predicate NoneSooner(order: seq<nat>, b: seq<Notification>) {
    forall n :: 0 <= n < |b| ==> !Complete(order, b[..n])
  }

  lemma BlockIsEnough(order: seq<nat>, vs: seq<Variant>, b: seq<Notification>)
    requires order != [] && Distinct(order) && Block(order, vs, b)
    ensures Enough(order, vs, b)
  {
    BlockIsUsable(order, vs, b, |b| - 1);
    BlockIsComplete(order, vs, b);
    forall n | 0 <= n < |b| ensures !Complete(order, b[..n]) {
      PrefixIsIncomplete(order, vs, b, n);
    }
  }

  // ---------- all blocks ----------

  lemma OneLonger(ns: seq<Notification>, b: seq<Notification>, n: nat)
    requires n < |b|
    ensures b[..n + 1] == b[..n] + [b[n]] && ns + b[..n + 1] == (ns + b[..n]) + [b[n]]
    ensures n + 1 == |b| ==> b[..n + 1] == b
  {
  }

  /** Before its end, the notifications of a snapshot only wait. */
  lemma {:induction false} WaitsFor(order: seq<nat>, ns: seq<Notification>, b: seq<Notification>, n: nat)
    requires NoneSooner(order, b) && Pending(order, ns) == [] && n < |b|
    ensures Assemble(order, ns + b[..n]) == Assemble(order, ns) && Pending(order, ns + b[..n]) == b[..n]
    decreases n
  {
    if n == 0 {
      assert ns + b[..n] == ns;
    } else {
      WaitsFor(order, ns, b, n - 1);
      OneLonger(ns, b, n - 1);
      assert !Complete(order, b[..n]);
      AssembleKeeps(order, ns + b[..n - 1], b[n - 1]);
    }
  }

  lemma OneBlock(order: seq<nat>, ns: seq<Notification>, vs: seq<Variant>, b: seq<Notification>)
    requires Enough(order, vs, b) && Pending(order, ns) == []
    ensures Assemble(order, ns + b).emitted == Assemble(order, ns).emitted + [vs] && Pending(order, ns + b) == []
  {
    var n := |b| - 1;
    WaitsFor(order, ns, b, n);
    OneLonger(ns, b, n);
    AssembleEmits(order, ns + b[..n], b[n]);
  }

  /** What has been emitted so far, with nothing left waiting. */
  ghost predicate Emitted(order: seq<nat>, ns: seq<Notification>, snapshots: seq<seq<Variant>>) {
    Assemble(order, ns).emitted == snapshots && Pending(order, ns) == []
  }

  lemma OneMoreBlock(order: seq<nat>, ns: seq<Notification>, snapshots: seq<seq<Variant>>, vs: seq<Variant>,
                     b: seq<Notification>)
    requires Emitted(order, ns, snapshots) && Enough(order, vs, b)
    ensures Emitted(order, ns + b, snapshots + [vs])
  {
    OneBlock(order, ns, vs, b);
  }

  lemma {:induction false} BlocksAssemble(order: seq<nat>, snapshots: seq<seq<Variant>>, blocks: seq<seq<Notification>>)
    requires |blocks| == |snapshots| && forall k :: 0 <= k < |blocks| ==> Enough(order, snapshots[k], blocks[k])
    ensures Emitted(order, Concat(blocks), snapshots)
    decreases |blocks|
  {
    if blocks != [] {
      var n := |blocks| - 1;
      BlocksAssemble(order, snapshots[..n], blocks[..n]);
      OneMoreBlock(order, Concat(blocks[..n]), snapshots[..n], snapshots[n], blocks[n]);
      assert snapshots == snapshots[..n] + [snapshots[n]];
    }
  }

  /** If the notifications of each sent value come together, in whatever order among
      themselves, all values that survive the conversion arrive, in order. */
  lemma BlocksArrive(target: Node, order: seq<nat>, values: seq<Node>, snapshots: seq<seq<Variant>>,
                     blocks: seq<seq<Notification>>)
    requires Blank(target) && NewElementsBlank(target) && order != [] && Distinct(order)
    requires |snapshots| == |values| && Blocks(order, snapshots, blocks)
    requires forall k :: 0 <= k < |values| ==>
      ValueOf(target, values[k]) && Survives(values[k]) && snapshots[k] == Encode(values[k])
    ensures Arrived(target, Assemble(order, Concat(blocks)).emitted) == values
  {
    forall k | 0 <= k < |blocks| ensures Enough(order, snapshots[k], blocks[k]) {
      assert Block(order, snapshots[k], blocks[k]);
      BlockIsEnough(order, snapshots[k], blocks[k]);
    }
    BlocksAssemble(order, snapshots, blocks);
    SentValuesArrive(target, snapshots, values);
  }

  /** A snapshot that cannot be read is dropped; every other one arrives. */
  lemma UnreadableIsDropped(target: Node, snapshots: seq<seq<Variant>>, last: seq<Variant>)
    ensures var d := Decode(target, last, 0);
      Arrived(target, snapshots + [last]) == Arrived(target, snapshots) + if d.Bad? then [] else [d.value.0]
  {
    assert (snapshots + [last])[..|snapshots|] == snapshots;
    assert Arrived(target, snapshots) + [] == Arrived(target, snapshots);
  }

  // ---------- a mixed snapshot ----------

  function Bit(b: bool): Variant { Scalar(BOOLEAN, Flag(b)) }

  function Told(id: nat, b: bool): Notification { Notification(id, true, Some(Bit(b))) }

  /** Two values are sent, each with the same bit for both items. The second
      notification for item 1 comes before the first one for item 2. */
  function Interleaved(): seq<Notification> { [Told(1, false), Told(1, true), Told(2, false), Told(2, true)] }

  /** Then the first snapshot mixes the two values, and is of neither. */
  lemma MixedSnapshot()
    ensures Assemble([1, 2], Interleaved()).emitted == [[Bit(true), Bit(false)]]
  {
    var order, ns := [1, 2], Interleaved();
    var a, b, c := [Told(1, false)], [Told(1, false), Told(1, true)], [Told(1, false), Told(1, true), Told(2, false)];
    assert [] + [ns[0]] == a && a + [ns[1]] == b && b + [ns[2]] == c == ns[..3] && c + [ns[3]] == ns;
    assert Assemble(order, []) == Assembly([], []) && Pending(order, []) == [];
    NothingLatest(a, 2);
    NothingLatest(b, 2);
    NothingLatest([ns[3]], 1);
    assert !Complete(order, a) by { assert Latest(a, order[1]) == None; }
    assert !Complete(order, b) by { assert Latest(b, order[1]) == None; }
    assert !Complete(order, [ns[3]]) by { assert Latest([ns[3]], order[0]) == None; }
    AssembleKeeps(order, [], ns[0]);
    AssembleKeeps(order, a, ns[1]);
    MixedIsComplete();
    AssembleEmits(order, b, ns[2]);
    assert [] + [ns[3]] == [ns[3]];
    AssembleKeeps(order, c, ns[3]);
  }

  lemma MixedIsComplete()
    ensures var c := Interleaved()[..3];
      Complete([1, 2], c) && Snapshot([1, 2], c) == [Bit(true), Bit(false)]
  {
    var ns := Interleaved();
    assert ns[..3] == [ns[0], ns[1]] + [ns[2]] && [ns[0], ns[1]] == [ns[0]] + [ns[1]];
    LatestAfter([ns[0], ns[1]], ns[2], 2);
    LatestAfter([ns[0], ns[1]], ns[2], 1);
    LatestAfter([ns[0]], ns[1], 1);
    assert Latest(ns[..3], [1, 2][0]) == Some(Bit(true)) && Latest(ns[..3], [1, 2][1]) == Some(Bit(false));
  }
}
