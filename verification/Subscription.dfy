/** The ring buffer, its reader, and the subscription that fills it. */
module Subscription {
  import opened Names
  import opened CodecModel
  import opened SnapshotModel
  import opened CodecRoundTrip
  import BufferModel
  import Codec

  /** A buffer that overwrites its oldest element. `history` holds all data ever
      added. */
  class ArrayBuffer<T(0)> {
    const dataBuffer: array<T>
    var dataCounter: nat
    ghost var history: seq<T>

    ghost predicate Valid()
      reads this, dataBuffer
    {
      && 0 < dataBuffer.Length
      && dataCounter == |history|
      && forall k :: BufferModel.Oldest(|history|, dataBuffer.Length) <= k < |history| ==>
           dataBuffer[k % dataBuffer.Length] == history[k]
    }

    constructor (bufferSize: nat)
      requires 0 < bufferSize
      ensures Valid() && fresh(dataBuffer) && dataBuffer.Length == bufferSize && history == []
    {
      dataBuffer := new T[bufferSize];
      dataCounter := 0;
      history := [];
    }

    predicate HasData(position: nat)
      requires Valid()
      reads this, dataBuffer
      ensures HasData(position) <==> position < |history|
    {
      dataCounter > position
    }

    method AddData(data: T)
      requires Valid()
      modifies this, dataBuffer
      ensures Valid() && history == old(history) + [data]
    {
      var nextIndex := dataCounter % dataBuffer.Length;
      dataBuffer[nextIndex] := data;
      dataCounter := dataCounter + 1;
      history := history + [data];
      var n := dataBuffer.Length;
      forall k | BufferModel.Oldest(|history|, n) <= k < |history| - 1 ensures k % n != nextIndex {
        SlotsDiffer(k, |history| - 1, n);
      }
    }

    /** The part after the wait for data. */
    method GetData(position: nat) returns (data: T, overflow: bool, readPosition: nat)
      requires Valid() && HasData(position)
      ensures overflow <==> position < BufferModel.Oldest(|history|, dataBuffer.Length)
      ensures readPosition == if overflow then BufferModel.Oldest(|history|, dataBuffer.Length) else position
      ensures readPosition < |history| && data == history[readPosition]
    {
      overflow := dataCounter - position > dataBuffer.Length;
      readPosition := if overflow then dataCounter - dataBuffer.Length else position;
      data := dataBuffer[readPosition % dataBuffer.Length];
    }
  }

  /** Two positions less than a buffer apart have different slots. */
  lemma SlotsDiffer(j: nat, k: nat, n: nat)
    requires 0 < n && j < k < j + n
    ensures j % n != k % n
  {
    if j % n == k % n {
      var a, b := j / n, k / n;
      assert j == n * a + j % n && k == n * b + k % n;
      assert k - j == n * (b - a);
      NoMultipleBetween(n, b - a);
      assert false;
    }
  }

  lemma NoMultipleBetween(n: nat, m: int)
    requires 0 < n
    ensures !(0 < n * m < n)
  {
    if m >= 1 {
      assert n * m >= n * 1;
    } else {
      assert n * m <= 0;
    }
  }

  /** Reads a buffer element by element. */
  class Reader<T(0)> {
    const buffer: ArrayBuffer<T>
    var dataFetchCounter: nat
    var overflow: bool

    constructor (buffer: ArrayBuffer<T>)
      ensures this.buffer == buffer && State() == BufferModel.Reader(0, false)
    {
      this.buffer := buffer;
      dataFetchCounter := 0;
      overflow := false;
    }

    function State(): BufferModel.Reader
      reads this
    {
      BufferModel.Reader(dataFetchCounter, overflow)
    }

    method GetData() returns (data: T)
      requires buffer.Valid() && buffer.HasData(dataFetchCounter)
      modifies this
      ensures var (reader, reading) := BufferModel.Take(buffer.history, buffer.dataBuffer.Length, old(State()));
        State() == reader && data == reading.data
    {
      var missed, position;
      data, missed, position := buffer.GetData(dataFetchCounter);
      dataFetchCounter := position;
      dataFetchCounter := dataFetchCounter + 1;
      overflow := overflow || missed;
    }

    method ResetOverflow()
      modifies this
      ensures State() == old(State()).(overflow := false)
    {
      overflow := false;
    }
  }

  // ---------- gathering snapshots ----------

  function Converted(target: Node, snapshot: seq<Variant>): Decoded<Node> {
    match Decode(target, snapshot, 0) case Good((n, _)) => Good(n) case Bad(e) => Bad(e)
  }

  /** The data that a list of snapshots gives; one that cannot be decoded is lost. */
  function Arrived(target: Node, snapshots: seq<seq<Variant>>): seq<Node> {
    if snapshots == [] then []
    else
      var front := Arrived(target, snapshots[..|snapshots| - 1]);
      match Converted(target, snapshots[|snapshots| - 1]) case Good(n) => front + [n] case Bad(_) => front
  }

  /** Snapshots of sent values that survive the conversion arrive as these values,
      none lost and in order. */
  lemma {:induction false} SentValuesArrive(target: Node, snapshots: seq<seq<Variant>>, values: seq<Node>)
    requires Blank(target) && NewElementsBlank(target) && |snapshots| == |values|
    requires forall k :: 0 <= k < |values| ==>
      ValueOf(target, values[k]) && Survives(values[k]) && snapshots[k] == Encode(values[k])
    ensures Arrived(target, snapshots) == values
  {
    if values != [] {
      var n := |values| - 1;
      SentValuesArrive(target, snapshots[..n], values[..n]);
      FreshRoundTrip(target, values[n]);
      assert values == values[..n] + [values[n]];
    }
  }

  /** Number of items that have a value. */
  function ValuesSet(items: map<nat, Option<Variant>>, order: seq<nat>): nat
    requires forall i :: 0 <= i < |order| ==> order[i] in items
  {
    if order == [] then 0
    else ValuesSet(items, order[..|order| - 1]) + (if items[order[|order| - 1]].Some? then 1 else 0)
  }

  predicate Distinct(order: seq<nat>) {
    forall i, j :: 0 <= i < j < |order| ==> order[i] != order[j]
  }

  lemma {:induction false} AllSet(items: map<nat, Option<Variant>>, order: seq<nat>)
    requires forall i :: 0 <= i < |order| ==> order[i] in items
    ensures ValuesSet(items, order) <= |order|
    ensures ValuesSet(items, order) == |order| <==> forall i :: 0 <= i < |order| ==> items[order[i]].Some?
  {
    if order != [] {
      AllSet(items, order[..|order| - 1]);
    }
  }

  lemma {:induction false} OneSet(items: map<nat, Option<Variant>>, order: seq<nat>, id: nat, v: Variant)
    requires Distinct(order) && forall i :: 0 <= i < |order| ==> order[i] in items
    ensures ValuesSet(items[id := Some(v)], order)
      == ValuesSet(items, order) + (if id !in order || items[id].Some? then 0 else 1)
  {
    if order != [] {
      OneSet(items, order[..|order| - 1], id, v);
    }
  }

  lemma {:induction false} NoneSet(items: map<nat, Option<Variant>>, order: seq<nat>)
    requires forall i :: 0 <= i < |order| ==> order[i] in items && items[order[i]] == None
    ensures ValuesSet(items, order) == 0
  {
    if order != [] {
      NoneSet(items, order[..|order| - 1]);
    }
  }

  lemma {:induction false} SizeOfKeys(order: seq<nat>, keys: set<nat>)
    requires Distinct(order) && forall id :: id in keys <==> id in order
    ensures |keys| == |order|
    decreases order
  {
    if order == [] {
      assert keys == {};
    } else {
      var last := order[|order| - 1];
      SizeOfKeys(order[..|order| - 1], keys - {last});
      assert keys == (keys - {last}) + {last};
    }
  }

  lemma ArrivedAfter(target: Node, snapshots: seq<seq<Variant>>, snapshot: seq<Variant>)
    ensures Arrived(target, snapshots + [snapshot]) == Arrived(target, snapshots)
      + match Converted(target, snapshot) case Good(n) => [n] case Bad(_) => []
  {
    assert (snapshots + [snapshot])[..|snapshots|] == snapshots;
  }

  /** Each item has its latest value among `window`, and the counter counts them. */
  ghost predicate Tracks(order: seq<nat>, window: seq<Notification>, items: map<nat, Option<Variant>>, valuesSet: nat) {
    && Distinct(order)
    && (forall id :: id in items <==> id in order)
    && (forall id :: id in order ==> items[id] == Latest(window, id))
    && valuesSet == ValuesSet(items, order)
  }

  /** A usable value for an item. */
  lemma TracksOne(order: seq<nat>, window: seq<Notification>, items: map<nat, Option<Variant>>, valuesSet: nat,
                  n: Notification, items': map<nat, Option<Variant>>, valuesSet': nat)
    requires Tracks(order, window, items, valuesSet) && Usable(n) && n.id in items
    requires items' == items[n.id := n.value] && valuesSet' == ValuesSet(items', order)
    ensures Tracks(order, window + [n], items', valuesSet')
  {
    forall id | id in order ensures items'[id] == Latest(window + [n], id) {
      LatestAfter(window, n, id);
    }
  }

  /** Each item has its latest value since the last snapshot, the counter counts
      them, and all snapshots have arrived. */
  ghost predicate Gathered(target: Node, order: seq<nat>, seen: seq<Notification>,
                           items: map<nat, Option<Variant>>, valuesSet: nat, arrived: seq<Node>) {
    && order != [] && valuesSet < |order|
    && Tracks(order, Pending(order, seen), items, valuesSet)
    && arrived == Arrived(target, Assemble(order, seen).emitted)
  }

  lemma GatheredIgnored(target: Node, order: seq<nat>, seen: seq<Notification>,
                        items: map<nat, Option<Variant>>, valuesSet: nat, arrived: seq<Node>, n: Notification)
    requires Gathered(target, order, seen, items, valuesSet, arrived) && !(Usable(n) && n.id in order)
    ensures Gathered(target, order, seen + [n], items, valuesSet, arrived)
  {
    AssembleStep(order, seen, n);
    var window := Pending(order, seen);
    forall id | id in order ensures Latest(window + [n], id) == Latest(window, id) {
      LatestAfter(window, n, id);
    }
  }

  lemma GatheredOne(target: Node, order: seq<nat>, seen: seq<Notification>, n: Notification,
                    items: map<nat, Option<Variant>>, valuesSet: nat, arrived: seq<Node>)
    requires order != [] && Tracks(order, Pending(order, seen) + [n], items, valuesSet)
    requires valuesSet < |order| && arrived == Arrived(target, Assemble(order, seen).emitted)
    requires !Complete(order, Pending(order, seen) + [n])
    ensures Gathered(target, order, seen + [n], items, valuesSet, arrived)
  {
    AssembleStep(order, seen, n);
  }

  lemma GatheredAll(target: Node, order: seq<nat>, seen: seq<Notification>, n: Notification,
                    items: map<nat, Option<Variant>>, arrived: seq<Node>)
    requires order != [] && Usable(n) && n.id in order && Complete(order, Pending(order, seen) + [n])
    requires Tracks(order, [], items, 0)
    requires arrived == Arrived(target, Assemble(order, seen).emitted)
      + match Converted(target, Snapshot(order, Pending(order, seen) + [n])) case Good(x) => [x] case Bad(_) => []
    ensures Gathered(target, order, seen + [n], items, 0, arrived)
  {
    AssembleStep(order, seen, n);
    ArrivedAfter(target, Assemble(order, seen).emitted, Snapshot(order, Pending(order, seen) + [n]));
  }

  /** A subscription to a fixed list of items. `seen` holds all notifications that
      have arrived. */
  class AsyncSubscription {
    const target: Node
    const buffer: ArrayBuffer<Node>
    const order: seq<nat>
    var items: map<nat, Option<Variant>>
    var valuesSet: nat
    ghost var seen: seq<Notification>

    ghost predicate Valid()
      reads this, buffer, buffer.dataBuffer
    {
      buffer.Valid() && Gathered(target, order, seen, items, valuesSet, buffer.history)
    }

    constructor (target: Node, order: seq<nat>, bufferSize: nat)
      requires order != [] && Distinct(order) && 0 < bufferSize
      ensures Valid() && fresh(buffer) && fresh(buffer.dataBuffer)
      ensures this.target == target && this.order == order && seen == []
    {
      this.target := target;
      this.order := order;
      buffer := new ArrayBuffer(bufferSize);
      items := map id | id in order :: None;
      valuesSet := 0;
      seen := [];
      new;
      NoneSet(items, order);
    }

    /** Takes one value of each item, in the order of subscription. */
    method TakeValues() returns (list: seq<Variant>)
      requires Distinct(order) && forall id :: id in items <==> id in order
      requires forall id :: id in order ==> items[id].Some?
      modifies this`items, this`valuesSet
      ensures |list| == |order| && forall i :: 0 <= i < |order| ==> Some(list[i]) == old(items)[order[i]]
      ensures forall id :: id in items <==> id in order
      ensures (forall id :: id in order ==> items[id] == None) && valuesSet == 0
    {
      list := [];
      for i := 0 to |order|
        invariant |list| == i && forall k :: 0 <= k < i ==> Some(list[k]) == old(items)[order[k]]
        invariant forall id :: id in items <==> id in order
        invariant forall k :: 0 <= k < i ==> items[order[k]] == None
        invariant forall k :: i <= k < |order| ==> items[order[k]] == old(items)[order[k]]
      {
        list := list + [items[order[i]].value];
        items := items[order[i] := None];
      }
      valuesSet := 0;
    }

    /** Converts a snapshot and adds it to the buffer. */
    method ProcessValues(list: seq<Variant>)
      requires buffer.Valid()
      modifies buffer, buffer.dataBuffer
      ensures buffer.Valid()
      ensures buffer.history == old(buffer.history)
        + match Converted(target, list) case Good(newValue) => [newValue] case Bad(_) => []
    {
      var visitor := new Codec.ToCommObjectVisitor(list);
      var newValue := visitor.Visit(target);
      if newValue.Good? {
        buffer.AddData(newValue.value);
      }
    }

    /** Keeps a value for its item. */
    method Store(id: nat, v: Variant)
      requires Distinct(order) && (forall i :: i in items <==> i in order) && id in order
      requires valuesSet == ValuesSet(items, order)
      modifies this`items, this`valuesSet
      ensures items == old(items)[id := Some(v)]
      ensures valuesSet == ValuesSet(items, order)
      ensures valuesSet == |items| <==> forall i :: i in order ==> items[i].Some?
      ensures valuesSet <= |order| == |items|
    {
      OneSet(items, order, id, v);
      if items[id].None? {
        valuesSet := valuesSet + 1;
      }
      items := items[id := Some(v)];
      AllSet(items, order);
      SizeOfKeys(order, items.Keys);
    }

    /** All items have a value: they become a snapshot. */
    method Emit(ghost window: seq<Notification>)
      requires buffer.Valid() && Tracks(order, window, items, valuesSet) && Complete(order, window)
      modifies this`items, this`valuesSet, buffer, buffer.dataBuffer
      ensures buffer.Valid() && Tracks(order, [], items, valuesSet) && valuesSet == 0
      ensures buffer.history == old(buffer.history)
        + match Converted(target, Snapshot(order, window)) case Good(newValue) => [newValue] case Bad(_) => []
    {
      StoredIsComplete(order, items, window);
      var list := TakeValues();
      NoneSet(items, order);
      assert list == Snapshot(order, window);
      ProcessValues(list);
    }

    method ValueChanged(n: Notification)
      requires Valid()
      modifies this, buffer, buffer.dataBuffer
      ensures Valid() && seen == old(seen) + [n]
    {
      ghost var window := Pending(order, seen);
      ghost var items0, valuesSet0, seen0 := items, valuesSet, seen;
      seen := seen + [n];
      if !n.good || n.value.None? || n.id !in items {
        GatheredIgnored(target, order, seen0, items, valuesSet, buffer.history, n);
        return;
      }
      Store(n.id, n.value.value);
      TracksOne(order, window, items0, valuesSet0, n, items, valuesSet);
      StoredIsComplete(order, items, window + [n]);
      if valuesSet == |items| {
        Emit(window + [n]);
        GatheredAll(target, order, seen0, n, items, buffer.history);
      } else {
        GatheredOne(target, order, seen0, n, items, valuesSet, buffer.history);
      }
    }
  }

  lemma StoredIsComplete(order: seq<nat>, items: map<nat, Option<Variant>>, window: seq<Notification>)
    requires forall id :: id in order ==> id in items && items[id] == Latest(window, id)
    ensures Complete(order, window) <==> forall id :: id in order ==> items[id].Some?
  {
    if Complete(order, window) {
      forall id | id in order ensures items[id].Some? {
        var i :| 0 <= i < |order| && order[i] == id;
        assert Latest(window, order[i]).Some?;
      }
    }
  }
}
