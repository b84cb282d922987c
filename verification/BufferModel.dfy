/** The subscription buffer and its readers, against the unbounded history of all
    data that were added. */
module BufferModel {

  /** First position that a buffer of `size` elements still holds. */
  function Oldest(length: nat, size: nat): nat { if length > size then length - size else 0 }

  /** A reader: the position it asks for next, and whether it has missed data. */
  datatype Reader = Reader(next: nat, overflow: bool)

  /** One read: where it read, what, and how long the history was by then. */
  datatype Reading<T> = Reading(position: nat, data: T, length: nat)

  datatype Event<T> = Add(data: T) | Read | ResetOverflow

  /** A buffer of `size` elements with one reader. `since` counts the readings
      before the overflow flag was last reset. */
  datatype World<T> = World(history: seq<T>, reader: Reader, log: seq<Reading<T>>, since: nat)

  function Start<T>(): World<T> { World([], Reader(0, false), [], 0) }

  /** A read, once there is something at its position: from there, or from the
      oldest position that the buffer still holds. */
  function Take<T>(history: seq<T>, size: nat, r: Reader): (Reader, Reading<T>)
    requires r.next < |history| && 0 < size
  {
    var missed := |history| - r.next > size;
    var position := if missed then |history| - size else r.next;
    (Reader(position + 1, r.overflow || missed), Reading(position, history[position], |history|))
  }

  /** A read that finds nothing has not happened yet. */
  function Step<T>(w: World<T>, size: nat, e: Event<T>): World<T> {
    match e
    case Add(x) => w.(history := w.history + [x])
    case ResetOverflow => w.(reader := w.reader.(overflow := false), since := |w.log|)
    case Read =>
      if w.reader.next >= |w.history| || size == 0 then w
      else
        var (reader, reading) := Take(w.history, size, w.reader);
        World(w.history, reader, w.log + [reading], w.since)
  }

  function Run<T>(size: nat, es: seq<Event<T>>): World<T> {
    if es == [] then Start() else Step(Run(size, es[..|es| - 1]), size, es[|es| - 1])
  }

  /** Position that follows the first `i` readings. */
  function Expected<T>(log: seq<Reading<T>>, i: nat): nat
    requires i <= |log|
  {
    if i == 0 then 0 else log[i - 1].position + 1
  }

  /** A reading gives the datum at its position, which the buffer still held; it
      goes forward, and what it skips the buffer had lost. */
  predicate Sound<T(==)>(history: seq<T>, size: nat, log: seq<Reading<T>>, i: nat)
    requires i < |log|
  {
    var r := log[i];
    Oldest(r.length, size) <= r.position < r.length <= |history|
    && r.data == history[r.position]
    && Expected(log, i) <= r.position
    && (r.position > Expected(log, i) ==> r.position == Oldest(r.length, size))
  }

  predicate Missed<T>(log: seq<Reading<T>>, i: nat)
    requires i < |log|
  {
    log[i].position > Expected(log, i)
  }

  ghost predicate Faithful<T>(w: World<T>, size: nat) {
    && w.since <= |w.log|
    && w.reader.next == Expected(w.log, |w.log|) <= |w.history|
    && (forall i :: 0 <= i < |w.log| ==> Sound(w.history, size, w.log, i))
    && (w.reader.overflow <==> exists i :: w.since <= i < |w.log| && Missed(w.log, i))
  }

  lemma StepFaithful<T>(w: World<T>, size: nat, e: Event<T>)
    requires size > 0 && Faithful(w, size)
    ensures Faithful(Step(w, size, e), size)
  {
    var next := Step(w, size, e);
    match e
    case Add(x) =>
      forall i | 0 <= i < |w.log| ensures Sound(next.history, size, w.log, i) {
        assert Sound(w.history, size, w.log, i);
      }
    case ResetOverflow =>
    case Read =>
      if w.reader.next < |w.history| {
        var n := |w.log|;
        forall i | 0 <= i <= n ensures Sound(next.history, size, next.log, i) {
          assert i < n ==> Sound(w.history, size, w.log, i);
        }
        assert forall i :: 0 <= i < n ==> Missed(next.log, i) == Missed(w.log, i);
        if next.reader.overflow {
          if w.reader.overflow {
            var i :| w.since <= i < n && Missed(w.log, i);
            assert Missed(next.log, i);
          } else {
            assert Missed(next.log, n);
          }
        }
      }
  }

  /** Whatever is added, read and reset, in any order: readings are faithful to the
      history, and the overflow flag tells exactly whether data were missed. */
  lemma {:induction false} AlwaysFaithful<T>(size: nat, es: seq<Event<T>>)
    requires size > 0
    ensures Faithful(Run(size, es), size)
    decreases |es|
  {
    if es != [] {
      AlwaysFaithful(size, es[..|es| - 1]);
      StepFaithful(Run(size, es[..|es| - 1]), size, es[|es| - 1]);
    }
  }

  /** Positions that are read strictly increase. */
  lemma {:induction false} PositionsIncrease<T>(size: nat, es: seq<Event<T>>, i: nat, j: nat)
    requires size > 0 && i < j < |Run(size, es).log|
    ensures Run(size, es).log[i].position < Run(size, es).log[j].position
    decreases j
  {
    AlwaysFaithful(size, es);
    var w := Run(size, es);
    assert Sound(w.history, size, w.log, j);
    if i < j - 1 {
      PositionsIncrease(size, es, i, j - 1);
    }
  }

  /** An element that was never delivered, though a later one was, was lost to the
      buffer when that later one was read. */
  lemma SkippedWasLost<T>(size: nat, es: seq<Event<T>>, i: nat, p: nat)
    requires size > 0 && i < |Run(size, es).log|
    requires Expected(Run(size, es).log, i) <= p < Run(size, es).log[i].position
    ensures p + size < Run(size, es).log[i].length
  {
    AlwaysFaithful(size, es);
    assert Sound(Run(size, es).history, size, Run(size, es).log, i);
  }

  function Data<T>(log: seq<Reading<T>>): (r: seq<T>)
    ensures |r| == |log| && forall i :: 0 <= i < |log| ==> r[i] == log[i].data
  {
    seq(|log|, i requires 0 <= i < |log| => log[i].data)
  }

  /** The cursor after `k` readings, from the last reset on. */
  lemma {:induction false} Progress<T>(w: World<T>, size: nat, k: nat)
    requires Faithful(w, size) && w.since <= k <= |w.log|
    ensures Expected(w.log, k) >= Expected(w.log, w.since) + k - w.since
    ensures Expected(w.log, k) == Expected(w.log, w.since) + k - w.since <==> NoneMissed(w.log, w.since, k)
    decreases k
  {
    if k > w.since {
      Progress(w, size, k - 1);
      assert Sound(w.history, size, w.log, k - 1);
      assert NoneMissed(w.log, w.since, k) <==> NoneMissed(w.log, w.since, k - 1) && !Missed(w.log, k - 1);
    }
  }

  predicate NoneMissed<T>(log: seq<Reading<T>>, from: nat, to: nat)
    requires from <= to <= |log|
  {
    forall i :: from <= i < to ==> !Missed(log, i)
  }

  /** While the overflow flag is not set, what was delivered since it was reset is
      a slice of the history without a gap; while it is set, it is not. */
  lemma GapFree<T>(size: nat, es: seq<Event<T>>)
    requires size > 0
    ensures var w := Run(size, es);
      w.since <= |w.log| && Expected(w.log, w.since) <= w.reader.next <= |w.history|
      && (!w.reader.overflow ==> Data(w.log[w.since..]) == w.history[Expected(w.log, w.since)..w.reader.next])
      && (w.reader.overflow ==> |w.log| - w.since < w.reader.next - Expected(w.log, w.since))
  {
    AlwaysFaithful(size, es);
    var w := Run(size, es);
    Progress(w, size, |w.log|);
    if w.reader.overflow { GapWhenSet(w, size); } else { NoGapWhenUnset(w, size); }
  }

  lemma GapWhenSet<T>(w: World<T>, size: nat)
    requires Faithful(w, size) && w.reader.overflow
    ensures |w.log| - w.since < w.reader.next - Expected(w.log, w.since)
  {
    Progress(w, size, |w.log|);
    var i :| w.since <= i < |w.log| && Missed(w.log, i);
    assert !NoneMissed(w.log, w.since, |w.log|);
  }

  lemma NoGapWhenUnset<T>(w: World<T>, size: nat)
    requires Faithful(w, size) && !w.reader.overflow
    ensures Expected(w.log, w.since) <= w.reader.next
    ensures Data(w.log[w.since..]) == w.history[Expected(w.log, w.since)..w.reader.next]
  {
    Progress(w, size, |w.log|);
    assert NoneMissed(w.log, w.since, |w.log|);
    var data, slice := Data(w.log[w.since..]), w.history[Expected(w.log, w.since)..w.reader.next];
    forall i | 0 <= i < |data| ensures data[i] == slice[i] {
      ReadingAt(w, size, i);
    }
  }

  lemma ReadingAt<T>(w: World<T>, size: nat, i: nat)
    requires Faithful(w, size) && i < |w.log| - w.since && NoneMissed(w.log, w.since, |w.log|)
    ensures Expected(w.log, w.since) + i < |w.history|
    ensures w.log[w.since + i].data == w.history[Expected(w.log, w.since) + i]
  {
    Progress(w, size, w.since + i);
    assert NoneMissed(w.log, w.since, w.since + i);
    assert Sound(w.history, size, w.log, w.since + i) && !Missed(w.log, w.since + i);
  }
}
