/** Complete snapshots of the monitored items, as a function of all notifications
    that have arrived. */
module SnapshotModel {
  import opened CodecModel
  import opened Names

  /** A notification for a monitored item: whether its status is good, and its
      value if it has one. */
  datatype Notification = Notification(id: nat, good: bool, value: Option<Variant>)

  predicate Usable(n: Notification) { n.good && n.value.Some? }

  /** The last usable value for an item. */
  function Latest(ns: seq<Notification>, id: nat): Option<Variant> {
    if ns == [] then None
    else
      var n := ns[|ns| - 1];
      if Usable(n) && n.id == id then n.value else Latest(ns[..|ns| - 1], id)
  }

  predicate Complete(order: seq<nat>, ns: seq<Notification>) {
    forall i :: 0 <= i < |order| ==> Latest(ns, order[i]).Some?
  }

  /** One value for each item, in the order of subscription. */
  function Snapshot(order: seq<nat>, ns: seq<Notification>): (r: seq<Variant>)
    requires Complete(order, ns)
    ensures |r| == |order| && forall i :: 0 <= i < |order| ==> Some(r[i]) == Latest(ns, order[i])
  {
    seq(|order|, i requires 0 <= i < |order| => Latest(ns, order[i]).value)
  }

  /** The snapshots, and how many notifications had arrived at each of them. */
  datatype Assembly = Assembly(emitted: seq<seq<Variant>>, ends: seq<nat>)

  /** Number of notifications before the `k`-th snapshot's own. */
  function Begin(ends: seq<nat>, k: nat): nat
    requires k <= |ends|
  {
    if k == 0 then 0 else ends[k - 1]
  }

  /** What the `count`-th notification `n` does, the last of `window`. */
  function Next(order: seq<nat>, a: Assembly, window: seq<Notification>, n: Notification, count: nat): Assembly {
    if Usable(n) && n.id in order && Complete(order, window) then
      Assembly(a.emitted + [Snapshot(order, window)], a.ends + [count])
    else a
  }

  function Assemble(order: seq<nat>, ns: seq<Notification>): (a: Assembly)
    ensures |a.emitted| == |a.ends| && Begin(a.ends, |a.ends|) <= |ns|
  {
    if ns == [] then Assembly([], [])
    else
      var n := |ns| - 1;
      var before := Assemble(order, ns[..n]);
      Next(order, before, ns[Begin(before.ends, |before.ends|)..], ns[n], |ns|)
  }

  /** The `k`-th snapshot has the latest values of its own window, and no shorter
      window had a value for each item. */
  ghost predicate RightSnapshot(order: seq<nat>, ns: seq<Notification>, a: Assembly, k: nat)
    requires k < |a.ends| == |a.emitted|
  {
    var begin, end := Begin(a.ends, k), a.ends[k];
    begin < end <= |ns|
    && Complete(order, ns[begin..end]) && a.emitted[k] == Snapshot(order, ns[begin..end])
    && NoneBefore(order, ns, begin, end)
  }

  /** What one more notification does. */
  lemma AssembleStep(order: seq<nat>, ns: seq<Notification>, n: Notification)
    ensures var a, b := Assemble(order, ns), Assemble(order, ns + [n]);
      var window := Pending(order, ns) + [n];
      if Usable(n) && n.id in order && Complete(order, window)
      then b.emitted == a.emitted + [Snapshot(order, window)] && Pending(order, ns + [n]) == []
      else b == a && Pending(order, ns + [n]) == window
  {
    var a := Assemble(order, ns);
    var all := ns + [n];
    var window := Pending(order, ns) + [n];
    assert all[..|ns|] == ns && all[Begin(a.ends, |a.ends|)..] == window;
    assert Assemble(order, all) == Next(order, a, window, n, |all|);
  }

  /** The notifications since the last snapshot. */
  function Pending(order: seq<nat>, ns: seq<Notification>): seq<Notification> {
    var a := Assemble(order, ns);
    ns[Begin(a.ends, |a.ends|)..]
  }

  lemma AssembleKeeps(order: seq<nat>, ns: seq<Notification>, n: Notification)
    requires !Complete(order, Pending(order, ns) + [n])
    ensures Assemble(order, ns + [n]) == Assemble(order, ns) && Pending(order, ns + [n]) == Pending(order, ns) + [n]
  {
    AssembleStep(order, ns, n);
  }

  lemma AssembleEmits(order: seq<nat>, ns: seq<Notification>, n: Notification)
    requires Usable(n) && n.id in order && Complete(order, Pending(order, ns) + [n])
    ensures Assemble(order, ns + [n]).emitted == Assemble(order, ns).emitted + [Snapshot(order, Pending(order, ns) + [n])]
    ensures Pending(order, ns + [n]) == []
  {
    AssembleStep(order, ns, n);
  }

  lemma LatestAfter(ns: seq<Notification>, n: Notification, id: nat)
    ensures Latest(ns + [n], id) == if Usable(n) && n.id == id then n.value else Latest(ns, id)
  {
    assert (ns + [n])[..|ns|] == ns;
  }

  lemma LatestAfterUnusable(order: seq<nat>, ns: seq<Notification>, n: Notification)
    requires !(Usable(n) && n.id in order)
    ensures forall i :: 0 <= i < |order| ==> Latest(ns + [n], order[i]) == Latest(ns, order[i])
  {
    assert (ns + [n])[..|ns|] == ns;
  }

  ghost predicate AllRight(order: seq<nat>, ns: seq<Notification>, a: Assembly)
    requires |a.ends| == |a.emitted|
  {
    forall k :: 0 <= k < |a.ends| ==> RightSnapshot(order, ns, a, k)
  }

  /** No window from `begin` on has a value for each item. */
  ghost predicate NoneHeldBack(order: seq<nat>, ns: seq<Notification>, begin: nat)
    requires begin <= |ns|
  {
    forall j :: begin <= j <= |ns| ==> !Complete(order, ns[begin..j])
  }

  /** Over any notifications: every snapshot is right, their windows follow each
      other, and nothing that is complete is held back. */
  lemma {:induction false} SnapshotsAreRight(order: seq<nat>, ns: seq<Notification>)
    requires order != []
    ensures var a := Assemble(order, ns);
      AllRight(order, ns, a) && NoneHeldBack(order, ns, Begin(a.ends, |a.ends|))
    decreases |ns|
  {
    if ns == [] {
      NothingYet(order, ns);
    } else {
      var n := |ns| - 1;
      SnapshotsAreRight(order, ns[..n]);
      var before := Assemble(order, ns[..n]);
      OneMore(order, ns, before, Begin(before.ends, |before.ends|), Assemble(order, ns));
    }
  }

  /** The last notification keeps this, whether it completes a snapshot or not. */
  lemma OneMore(order: seq<nat>, ns: seq<Notification>, before: Assembly, begin: nat, a: Assembly)
    requires order != [] && ns != [] && |before.ends| == |before.emitted|
    requires begin == Begin(before.ends, |before.ends|) < |ns|
    requires a == Next(order, before, ns[begin..], ns[|ns| - 1], |ns|)
    requires AllRight(order, ns[..|ns| - 1], before) && NoneHeldBack(order, ns[..|ns| - 1], begin)
    ensures |a.ends| == |a.emitted| && Begin(a.ends, |a.ends|) <= |ns|
    ensures AllRight(order, ns, a) && NoneHeldBack(order, ns, Begin(a.ends, |a.ends|))
  {
    EarlierAreRight(order, ns, before, a);
    HeldBackStays(order, ns, begin);
    if a == before {
      LastHeldBack(order, ns, begin);
    } else {
      NewIsRight(order, ns, a, begin);
      NothingYet(order, ns);
    }
  }

  lemma EarlierAreRight(order: seq<nat>, ns: seq<Notification>, before: Assembly, a: Assembly)
    requires ns != [] && |before.ends| == |before.emitted| && |a.ends| == |a.emitted|
    requires before.ends <= a.ends && before.emitted <= a.emitted
    requires AllRight(order, ns[..|ns| - 1], before)
    ensures forall k :: 0 <= k < |before.ends| ==> RightSnapshot(order, ns, a, k)
  {
    forall k | 0 <= k < |before.ends| ensures RightSnapshot(order, ns, a, k) {
      RightStays(order, ns, before, a, k);
    }
  }

  lemma NothingYet(order: seq<nat>, ns: seq<Notification>)
    requires order != []
    ensures NoneHeldBack(order, ns, |ns|)
  {
    assert Latest([], order[0]) == None && ns[|ns|..|ns|] == [];
  }

  lemma HeldBackStays(order: seq<nat>, ns: seq<Notification>, begin: nat)
    requires ns != [] && begin < |ns| && NoneHeldBack(order, ns[..|ns| - 1], begin)
    ensures NoneBefore(order, ns, begin, |ns|)
  {
    var front := ns[..|ns| - 1];
    forall j | begin <= j < |ns| ensures !Complete(order, ns[begin..j]) {
      SameWindow(ns, begin, j);
      assert !Complete(order, front[begin..j]);
    }
  }

  lemma SameWindow(ns: seq<Notification>, begin: nat, j: nat)
    requires begin <= j < |ns|
    ensures ns[..|ns| - 1][begin..j] == ns[begin..j]
  {
  }

  /** No window that begins at `begin` and ends before `end` has a value for each item. */
  ghost predicate NoneBefore(order: seq<nat>, ns: seq<Notification>, begin: nat, end: nat)
    requires begin <= end <= |ns|
  {
    forall j :: begin <= j < end ==> !Complete(order, ns[begin..j])
  }

  lemma NewIsRight(order: seq<nat>, ns: seq<Notification>, a: Assembly, begin: nat)
    requires a.ends != [] && |a.ends| == |a.emitted| && begin == Begin(a.ends, |a.ends| - 1) < |ns|
    requires a.ends[|a.ends| - 1] == |ns| && NoneBefore(order, ns, begin, |ns|)
    requires Complete(order, ns[begin..]) && a.emitted[|a.ends| - 1] == Snapshot(order, ns[begin..])
    ensures RightSnapshot(order, ns, a, |a.ends| - 1)
  {
    assert ns[begin..|ns|] == ns[begin..];
  }

  lemma RightStays(order: seq<nat>, ns: seq<Notification>, before: Assembly, a: Assembly, k: nat)
    requires ns != [] && k < |before.ends| == |before.emitted| && |a.ends| == |a.emitted|
    requires before.ends <= a.ends && before.emitted <= a.emitted
    requires RightSnapshot(order, ns[..|ns| - 1], before, k)
    ensures RightSnapshot(order, ns, a, k)
  {
    var front := ns[..|ns| - 1];
    var begin, end := Begin(a.ends, k), a.ends[k];
    assert begin == Begin(before.ends, k) && end == before.ends[k];
    assert ns[begin..end] == front[begin..end];
    forall j | begin <= j < end ensures !Complete(order, ns[begin..j]) {
      SameWindow(ns, begin, j);
      assert !Complete(order, front[begin..j]);
    }
  }

  lemma LastHeldBack(order: seq<nat>, ns: seq<Notification>, begin: nat)
    requires ns != [] && begin < |ns| && !Complete(order, ns[begin..|ns| - 1])
    requires !(Usable(ns[|ns| - 1]) && ns[|ns| - 1].id in order && Complete(order, ns[begin..]))
    ensures !Complete(order, ns[begin..|ns|])
  {
    var n := |ns| - 1;
    assert ns[begin..|ns|] == ns[begin..] == ns[begin..n] + [ns[n]];
    if !(Usable(ns[n]) && ns[n].id in order) {
      LatestAfterUnusable(order, ns[begin..n], ns[n]);
    }
  }

  // ---------- notifications that are ignored ----------

  predicate Heeded(order: seq<nat>, n: Notification) { n.good && n.value.Some? && n.id in order }

  /** The notifications with a good status and a value, for a monitored item. */
  function HeededOnly(order: seq<nat>, ns: seq<Notification>): seq<Notification> {
    if ns == [] then []
    else
      var front := HeededOnly(order, ns[..|ns| - 1]);
      if Heeded(order, ns[|ns| - 1]) then front + [ns[|ns| - 1]] else front
  }

  ghost predicate SameLatest(order: seq<nat>, a: seq<Notification>, b: seq<Notification>) {
    forall i :: 0 <= i < |order| ==> Latest(a, order[i]) == Latest(b, order[i])
  }

  /** The latest value of an item is that of the last notification for it that has a
      good status and a value. */
  lemma {:induction false} LatestMeans(ns: seq<Notification>, id: nat, k: nat)
    requires k < |ns| && ns[k].id == id && ns[k].good && ns[k].value.Some?
    requires forall j :: k < j < |ns| && ns[j].id == id ==> !ns[j].good || ns[j].value.None?
    ensures Latest(ns, id) == ns[k].value
  {
    if k < |ns| - 1 {
      LatestMeans(ns[..|ns| - 1], id, k);
    }
  }

  /** An item without such a notification has no value. */
  lemma {:induction false} NoLatestMeans(ns: seq<Notification>, id: nat)
    requires forall j :: 0 <= j < |ns| && ns[j].id == id ==> !ns[j].good || ns[j].value.None?
    ensures Latest(ns, id) == None
  {
    if ns != [] {
      NoLatestMeans(ns[..|ns| - 1], id);
    }
  }

  lemma SameSnapshot(order: seq<nat>, a: seq<Notification>, b: seq<Notification>)
    requires SameLatest(order, a, b)
    ensures Complete(order, a) <==> Complete(order, b)
    ensures Complete(order, a) ==> Snapshot(order, a) == Snapshot(order, b)
  {
  }

  lemma SameLatestAfter(order: seq<nat>, a: seq<Notification>, b: seq<Notification>, n: Notification)
    requires SameLatest(order, a, b)
    ensures SameLatest(order, a + [n], b + [n])
    ensures !Heeded(order, n) ==> SameLatest(order, a + [n], b)
  {
    forall i | 0 <= i < |order|
      ensures Latest(a + [n], order[i]) == Latest(b + [n], order[i])
      ensures !Heeded(order, n) ==> Latest(a + [n], order[i]) == Latest(b, order[i])
    {
      LatestAfter(a, n, order[i]);
      LatestAfter(b, n, order[i]);
    }
  }

  /** The same snapshots so far, and the same values waiting. */
  ghost predicate SameSoFar(order: seq<nat>, a: seq<Notification>, b: seq<Notification>) {
    Assemble(order, a).emitted == Assemble(order, b).emitted && SameLatest(order, Pending(order, a), Pending(order, b))
  }

  /** Of a notification with a bad status, or without a value, or for another item,
      nothing is seen: not even a snapshot that has become complete. */
  lemma IgnoredOne(order: seq<nat>, ns: seq<Notification>, n: Notification)
    requires !n.good || n.value.None? || n.id !in order
    ensures Assemble(order, ns + [n]) == Assemble(order, ns)
    ensures SameLatest(order, Pending(order, ns + [n]), Pending(order, ns))
  {
    AssembleStep(order, ns, n);
    SameLatestAfter(order, Pending(order, ns), Pending(order, ns), n);
  }

  lemma HeededOne(order: seq<nat>, a: seq<Notification>, b: seq<Notification>, n: Notification)
    requires SameSoFar(order, a, b) && Heeded(order, n)
    ensures SameSoFar(order, a + [n], b + [n])
  {
    AssembleStep(order, a, n);
    AssembleStep(order, b, n);
    var x, y := Pending(order, a) + [n], Pending(order, b) + [n];
    SameLatestAfter(order, Pending(order, a), Pending(order, b), n);
    SameSnapshot(order, x, y);
  }

  /** The snapshots are those of the notifications with a good status and a value for
      a monitored item: all others might as well not have arrived. */
  lemma {:induction false} OnlyHeededCount(order: seq<nat>, ns: seq<Notification>)
    ensures SameSoFar(order, ns, HeededOnly(order, ns))
    decreases |ns|
  {
    if ns != [] {
      var front, n := ns[..|ns| - 1], ns[|ns| - 1];
      OnlyHeededCount(order, front);
      assert ns == front + [n];
      if Heeded(order, n) {
        HeededOne(order, front, HeededOnly(order, front), n);
      } else {
        IgnoredOne(order, front, n);
      }
    }
  }
}
