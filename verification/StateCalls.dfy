/** The handler calls of one change: which ones, and in which order. */
module StateCalls {
  import opened Names
  import opened StateModel
  import opened StateConfig
  import opened StateTrace

  /** Quit for the substates that are left, and enter for those that are entered. */
  ghost predicate RightCalls(subs: seq<SubState>, current: Name, m: Name, calls: seq<Call>) {
    forall i :: 0 <= i < |subs| ==>
      && (Quit(subs[i].name) in calls <==> current in subs[i].mainstates && m !in subs[i].mainstates)
      && (Enter(subs[i].name) in calls <==> current !in subs[i].mainstates && m in subs[i].mainstates)
  }

  ghost predicate IsNamed(subs: seq<SubState>, n: Name) { exists i :: 0 <= i < |subs| && subs[i].name == n }

  /** No call is repeated, and each is about a substate. */
  ghost predicate SingleCalls(subs: seq<SubState>, calls: seq<Call>) {
    && (forall j, k :: 0 <= j < k < |calls| ==> calls[j] != calls[k])
    && (forall j :: 0 <= j < |calls| ==> IsNamed(subs, calls[j].sub))
  }

  /** Two calls of one kind, neither for "nonneutral", come in the order of the list. */
  ghost predicate ListOrder(subs: seq<SubState>, calls: seq<Call>) {
    forall x, y, j, k ::
      0 <= x < y < |subs| && 0 <= j < |calls| && 0 <= k < |calls| && SameKind(subs, x, y, calls[j], calls[k]) ==> j < k
  }

  predicate SameKind(subs: seq<SubState>, x: nat, y: nat, c: Call, d: Call)
    requires x < |subs| && y < |subs|
  {
    && c.sub == subs[x].name != NONNEUTRAL_LOWER && d.sub == subs[y].name != NONNEUTRAL_LOWER
    && (c.Quit? <==> d.Quit?)
  }

  ghost predicate CallsOfChange(subs: seq<SubState>, current: Name, m: Name, calls: seq<Call>) {
    RightCalls(subs, current, m, calls) && SingleCalls(subs, calls) && ListOrder(subs, calls) && Ordered(calls)
  }

  // ---------- the order of the list ----------

  lemma {:induction false} AffectedInListOrder(subs: seq<SubState>, a: Action, special: bool, x: nat, y: nat, j: nat, k: nat)
    requires UniqueNames(subs) && x < y < |subs|
    requires j < |Affected(subs, a, special)| && k < |Affected(subs, a, special)|
    requires Affected(subs, a, special)[j] == subs[x].name && Affected(subs, a, special)[k] == subs[y].name
    ensures j < k
  {
    var n := |subs| - 1;
    var front := Affected(subs[..n], a, special);
    AffectedFrom(subs[..n], a, special, subs[n].name);
    assert subs[n].name !in front;
    if k < |front| {
      assert front[k] == subs[y].name;
      assert j < |front|;
      AffectedInListOrder(subs[..n], a, special, x, y, j, k);
    }
  }

  /** `names` with their calls, after others: the calls are at the places of the names. */
  lemma OthersInOrder(subs: seq<SubState>, a: Action, special: bool, x: nat, y: nat, j: nat, k: nat)
    requires UniqueNames(subs) && x < y < |subs| && subs[x].name != NONNEUTRAL_LOWER && subs[y].name != NONNEUTRAL_LOWER
    requires j < |Both(subs, a, special)| && k < |Both(subs, a, special)|
    requires Both(subs, a, special)[j] == subs[x].name && Both(subs, a, special)[k] == subs[y].name
    ensures j < k
  {
    var w := |Affected(subs, a, special)|;
    AffectedSpecial(subs, a, true);
    NotSpecial(subs, a, subs[x].name);
    NotSpecial(subs, a, subs[y].name);
    if special {
      assert Affected(subs, a, !special)[j - w] == subs[x].name && Affected(subs, a, !special)[k - w] == subs[y].name;
      AffectedInListOrder(subs, a, false, x, y, j - w, k - w);
    } else {
      assert Affected(subs, a, special)[j] == subs[x].name && Affected(subs, a, special)[k] == subs[y].name;
      AffectedInListOrder(subs, a, false, x, y, j, k);
    }
  }

  lemma NotSpecial(subs: seq<SubState>, a: Action, n: Name)
    requires n != NONNEUTRAL_LOWER
    ensures n !in Affected(subs, a, true)
  {
    AffectedFrom(subs, a, true, n);
  }

  /** Where a call comes from. */
  lemma CallsAre(subs: seq<SubState>, j: nat)
    requires j < |HandlerCalls(subs)|
    ensures var q, e, c := Both(subs, Deactivate, false), Both(subs, Activate, true), HandlerCalls(subs)[j];
      |HandlerCalls(subs)| == |q| + |e| && c == if j < |q| then Quit(q[j]) else Enter(e[j - |q|])
  {
    var q, e := Both(subs, Deactivate, false), Both(subs, Activate, true);
    assert HandlerCalls(subs) == Quits(q) + Enters(e);
  }

  lemma CallIn(subs: seq<SubState>, n: Name)
    ensures Quit(n) in HandlerCalls(subs) <==> n in Both(subs, Deactivate, false)
    ensures Enter(n) in HandlerCalls(subs) <==> n in Both(subs, Activate, true)
  {
    var q, e := Both(subs, Deactivate, false), Both(subs, Activate, true);
    var calls := HandlerCalls(subs);
    assert calls == Quits(q) + Enters(e);
    if n in q { var k :| 0 <= k < |q| && q[k] == n; assert calls[k] == Quit(n); }
    if n in e { var k :| 0 <= k < |e| && e[k] == n; assert calls[|q| + k] == Enter(n); }
  }

  lemma CallsAreRight(subs: seq<SubState>, current: Name, m: Name)
    requires UniqueNames(subs)
    ensures RightCalls(subs, current, m, HandlerCalls(Marked(subs, current, m)))
  {
    var marked := Marked(subs, current, m);
    assert UniqueNames(marked);
    forall i | 0 <= i < |subs|
      ensures Quit(subs[i].name) in HandlerCalls(marked) <==> current in subs[i].mainstates && m !in subs[i].mainstates
      ensures Enter(subs[i].name) in HandlerCalls(marked) <==> current !in subs[i].mainstates && m in subs[i].mainstates
    {
      CallIn(marked, marked[i].name);
      BothExact(marked, Deactivate, false, i);
      BothExact(marked, Activate, true, i);
    }
  }

  lemma CallsAreSingle(subs: seq<SubState>)
    requires UniqueNames(subs)
    ensures SingleCalls(subs, HandlerCalls(subs))
  {
    var q, e, calls := Both(subs, Deactivate, false), Both(subs, Activate, true), HandlerCalls(subs);
    BothDistinct(subs, Deactivate, false);
    BothDistinct(subs, Activate, true);
    assert calls == Quits(q) + Enters(e);
    forall j | 0 <= j < |calls| ensures IsNamed(subs, calls[j].sub) {
      var i := if j < |q| then BothIndex(subs, Deactivate, false, q[j]) else BothIndex(subs, Activate, true, e[j - |q|]);
      assert subs[i].name == calls[j].sub;
    }
  }

  ghost function BothIndex(subs: seq<SubState>, a: Action, first: bool, n: Name): (i: nat)
    requires n in Both(subs, a, first)
    ensures i < |subs| && subs[i].name == n
  {
    assert exists i :: 0 <= i < |subs| && subs[i].name == n by { var i := BothFrom(subs, a, first, n); }
    var i :| 0 <= i < |subs| && subs[i].name == n;
    i
  }

  lemma CallsInListOrder(subs: seq<SubState>)
    requires UniqueNames(subs)
    ensures ListOrder(subs, HandlerCalls(subs))
  {
    var calls := HandlerCalls(subs);
    forall x, y, j, k | 0 <= x < y < |subs| && 0 <= j < |calls| && 0 <= k < |calls|
      && SameKind(subs, x, y, calls[j], calls[k])
      ensures j < k
    {
      CallsAre(subs, j);
      CallsAre(subs, k);
      var w := |Both(subs, Deactivate, false)|;
      if calls[j].Quit? {
        OthersInOrder(subs, Deactivate, false, x, y, j, k);
      } else {
        OthersInOrder(subs, Activate, true, x, y, j - w, k - w);
      }
    }
  }

  /** The calls of a change are those of its substates, each once; all quits come
      first; "nonneutral" is the last to quit and the first to be entered, and the
      others keep the order of the list. */
  lemma ChangeCalls(subs: seq<SubState>, current: Name, m: Name)
    requires UniqueNames(subs)
    ensures CallsOfChange(subs, current, m, HandlerCalls(Marked(subs, current, m)))
  {
    var marked := Marked(subs, current, m);
    assert UniqueNames(marked);
    CallsAreRight(subs, current, m);
    CallsAreSingle(marked);
    CallsInListOrder(marked);
    HandlerCallsOrdered(marked);
    SameList(subs, marked, HandlerCalls(marked));
  }

  lemma SameList(a: seq<SubState>, b: seq<SubState>, calls: seq<Call>)
    requires |a| == |b| && forall i :: 0 <= i < |a| ==> a[i].name == b[i].name
    requires SingleCalls(b, calls) && ListOrder(b, calls)
    ensures SingleCalls(a, calls) && ListOrder(a, calls)
  {
    forall j | 0 <= j < |calls| ensures IsNamed(a, calls[j].sub) {
      assert IsNamed(b, calls[j].sub);
      var i :| 0 <= i < |b| && b[i].name == calls[j].sub;
      assert a[i].name == calls[j].sub;
    }
    forall x, y, j, k | 0 <= x < y < |a| && 0 <= j < |calls| && 0 <= k < |calls| && SameKind(a, x, y, calls[j], calls[k])
      ensures j < k
    {
      assert SameKind(b, x, y, calls[j], calls[k]);
    }
  }
}
