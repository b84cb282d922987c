/** The state-change handler is told exactly what happens: its calls, replayed
    from the initially active substate, give the active substates at any time. */
module StateTrace {
  import opened Names
  import opened StateModel
  import opened StateConfig
  import opened StateInvariant

  /** Whether the handler calls leave substate `n` entered. */
  predicate Entered(calls: seq<Call>, n: Name) {
    if calls == [] then n == INIT_LOWER
    else
      var last := calls[|calls| - 1];
      if last.sub == n then last.Enter? else Entered(calls[..|calls| - 1], n)
  }

  /** A substate is entered only when it is not, and quit only when it is. The
      only exception is "neutral", which a deactivation leaves inactive and
      which is quit all the same when the Neutral main state is left. */
  predicate Alternates(calls: seq<Call>) {
    calls == [] ||
    (var before, last := calls[..|calls| - 1], calls[|calls| - 1];
     && Alternates(before)
     && (if last.Enter? then !Entered(before, last.sub)
         else Entered(before, last.sub) || last.sub == NEUTRAL_LOWER))
  }

  ghost predicate Matches(subs: seq<SubState>, calls: seq<Call>) {
    forall i :: 0 <= i < |subs| ==> (subs[i].active <==> Entered(calls, subs[i].name))
  }

  ghost predicate Absent(subs: seq<SubState>, n: Name) {
    forall i :: 0 <= i < |subs| ==> subs[i].name != n
  }

  ghost predicate OnlyKnown(subs: seq<SubState>, calls: seq<Call>) {
    forall n :: Absent(subs, n) ==> !Entered(calls, n)
  }

  /** The handler's view of the component: the substates it was told to be entered
      are the active ones, and it was told about each in alternation. */
  ghost predicate Traced(s: State) {
    && Matches(s.subs, s.h.calls)
    && Alternates(s.h.calls)
    && OnlyKnown(s.subs, s.h.calls)
  }

  // ---------- replaying the calls of one change ----------

  lemma {:induction false} EnteredAfterQuits(calls: seq<Call>, names: seq<Name>, n: Name)
    ensures Entered(calls + Quits(names), n) == (Entered(calls, n) && n !in names)
  {
    if names == [] {
      assert calls + Quits(names) == calls;
    } else {
      var all := calls + Quits(names);
      assert all[..|all| - 1] == calls + Quits(names[..|names| - 1]);
      EnteredAfterQuits(calls, names[..|names| - 1], n);
    }
  }

  lemma {:induction false} EnteredAfterEnters(calls: seq<Call>, names: seq<Name>, n: Name)
    ensures Entered(calls + Enters(names), n) == (Entered(calls, n) || n in names)
  {
    if names == [] {
      assert calls + Enters(names) == calls;
    } else {
      var all := calls + Enters(names);
      assert all[..|all| - 1] == calls + Enters(names[..|names| - 1]);
      EnteredAfterEnters(calls, names[..|names| - 1], n);
    }
  }

  lemma {:induction false} AlternatesAfterQuits(calls: seq<Call>, names: seq<Name>)
    requires Alternates(calls) && Distinct(names)
    requires forall n :: n in names ==> Entered(calls, n) || n == NEUTRAL_LOWER
    ensures Alternates(calls + Quits(names))
  {
    if names == [] {
      assert calls + Quits(names) == calls;
    } else {
      var all := calls + Quits(names);
      assert all[..|all| - 1] == calls + Quits(names[..|names| - 1]);
      AlternatesAfterQuits(calls, names[..|names| - 1]);
      EnteredAfterQuits(calls, names[..|names| - 1], names[|names| - 1]);
    }
  }

  lemma {:induction false} AlternatesAfterEnters(calls: seq<Call>, names: seq<Name>)
    requires Alternates(calls) && Distinct(names)
    requires forall n :: n in names ==> !Entered(calls, n)
    ensures Alternates(calls + Enters(names))
  {
    if names == [] {
      assert calls + Enters(names) == calls;
    } else {
      var all := calls + Enters(names);
      assert all[..|all| - 1] == calls + Enters(names[..|names| - 1]);
      AlternatesAfterEnters(calls, names[..|names| - 1]);
      EnteredAfterEnters(calls, names[..|names| - 1], names[|names| - 1]);
    }
  }

  /** The affected substates are listed once each. */
  lemma {:induction false} AffectedFrom(subs: seq<SubState>, a: Action, special: bool, n: Name)
    ensures n in Affected(subs, a, special) ==> exists i :: 0 <= i < |subs| && IsAffected(subs[i], a, special) && subs[i].name == n
  {
    if subs != [] {
      var front := subs[..|subs| - 1];
      AffectedFrom(front, a, special, n);
      if n in Affected(subs, a, special) {
        if n in Affected(front, a, special) {
          var i :| 0 <= i < |front| && IsAffected(front[i], a, special) && front[i].name == n;
          assert IsAffected(subs[i], a, special);
        } else {
          assert IsAffected(subs[|subs| - 1], a, special);
        }
      }
    }
  }

  lemma {:induction false} AffectedTo(subs: seq<SubState>, a: Action, special: bool, i: nat)
    requires i < |subs| && IsAffected(subs[i], a, special)
    ensures subs[i].name in Affected(subs, a, special)
  {
    if i < |subs| - 1 { AffectedTo(subs[..|subs| - 1], a, special, i); }
  }

  lemma {:induction false} AffectedDistinct(subs: seq<SubState>, a: Action, special: bool)
    requires UniqueNames(subs)
    ensures Distinct(Affected(subs, a, special))
  {
    if subs != [] {
      AffectedDistinct(subs[..|subs| - 1], a, special);
      AffectedFrom(subs[..|subs| - 1], a, special, subs[|subs| - 1].name);
    }
  }

  lemma AffectedExact(subs: seq<SubState>, a: Action, special: bool, i: nat)
    requires UniqueNames(subs) && i < |subs|
    ensures subs[i].name in Affected(subs, a, special) <==> IsAffected(subs[i], a, special)
  {
    if subs[i].name in Affected(subs, a, special) {
      AffectedFrom(subs, a, special, subs[i].name);
      var j :| 0 <= j < |subs| && IsAffected(subs[j], a, special) && subs[j].name == subs[i].name;
      assert !(i < j) && !(j < i);
    }
    if IsAffected(subs[i], a, special) { AffectedTo(subs, a, special, i); }
  }

  /** The substates of a change with one action, in the order of their calls. */
  function Both(subs: seq<SubState>, a: Action, first: bool): seq<Name> {
    Affected(subs, a, first) + Affected(subs, a, !first)
  }

  lemma BothExact(subs: seq<SubState>, a: Action, first: bool, i: nat)
    requires UniqueNames(subs) && i < |subs|
    ensures subs[i].name in Both(subs, a, first) <==> subs[i].action == a
  {
    AffectedExact(subs, a, first, i);
    AffectedExact(subs, a, !first, i);
  }

  lemma BothFrom(subs: seq<SubState>, a: Action, first: bool, n: Name) returns (i: nat)
    requires n in Both(subs, a, first)
    ensures i < |subs| && subs[i].action == a && subs[i].name == n
  {
    var special := if n in Affected(subs, a, first) then first else !first;
    AffectedFrom(subs, a, special, n);
    i :| i < |subs| && IsAffected(subs[i], a, special) && subs[i].name == n;
  }

  lemma BothDistinct(subs: seq<SubState>, a: Action, first: bool)
    requires UniqueNames(subs)
    ensures Distinct(Both(subs, a, first))
  {
    var x, y := Affected(subs, a, first), Affected(subs, a, !first);
    AffectedDistinct(subs, a, first);
    AffectedDistinct(subs, a, !first);
    forall i, j | 0 <= i < |x| && 0 <= j < |y| ensures x[i] != y[j] {
      AffectedFrom(subs, a, first, x[i]);
      AffectedFrom(subs, a, !first, y[j]);
    }
  }

  lemma QuitsBeforeEnters(subs: seq<SubState>, calls: seq<Call>)
    ensures calls + HandlerCalls(subs) == calls + Quits(Both(subs, Deactivate, false)) + Enters(Both(subs, Activate, true))
  {
  }

  lemma HandlerCallsEntered(subs: seq<SubState>, calls: seq<Call>, n: Name)
    ensures Entered(calls + HandlerCalls(subs), n)
      == ((Entered(calls, n) && n !in Both(subs, Deactivate, false)) || n in Both(subs, Activate, true))
  {
    var quit := calls + Quits(Both(subs, Deactivate, false));
    EnteredAfterQuits(calls, Both(subs, Deactivate, false), n);
    EnteredAfterEnters(quit, Both(subs, Activate, true), n);
    QuitsBeforeEnters(subs, calls);
  }

  /** The handler calls of a change enter and quit what the change switches. */
  lemma SwitchedMatches(subs: seq<SubState>, calls: seq<Call>)
    requires UniqueNames(subs) && Matches(subs, calls)
    ensures Matches(Switched(subs), calls + HandlerCalls(subs))
  {
    forall i | 0 <= i < |subs|
      ensures Switch(subs[i]).active <==> Entered(calls + HandlerCalls(subs), subs[i].name)
    {
      HandlerCallsEntered(subs, calls, subs[i].name);
      BothExact(subs, Deactivate, false, i);
      BothExact(subs, Activate, true, i);
    }
  }

  /** A marked substate that is left is active, or it is "neutral". */
  ghost predicate Switchable(sub: SubState) {
    && (sub.action == Deactivate ==> sub.active || sub.name == NEUTRAL_LOWER)
    && (sub.action == Activate ==> !sub.active)
  }

  lemma QuitsAreEntered(subs: seq<SubState>, calls: seq<Call>)
    requires Matches(subs, calls) && forall i :: 0 <= i < |subs| ==> Switchable(subs[i])
    ensures forall n :: n in Both(subs, Deactivate, false) ==> Entered(calls, n) || n == NEUTRAL_LOWER
  {
    forall n | n in Both(subs, Deactivate, false) ensures Entered(calls, n) || n == NEUTRAL_LOWER {
      var i := BothFrom(subs, Deactivate, false, n);
      assert Switchable(subs[i]);
    }
  }

  lemma EntersAreQuit(subs: seq<SubState>, calls: seq<Call>)
    requires Matches(subs, calls) && forall i :: 0 <= i < |subs| ==> Switchable(subs[i])
    ensures forall n :: n in Both(subs, Activate, true) ==> !Entered(calls + Quits(Both(subs, Deactivate, false)), n)
  {
    forall n | n in Both(subs, Activate, true)
      ensures !Entered(calls + Quits(Both(subs, Deactivate, false)), n)
    {
      var i := BothFrom(subs, Activate, true, n);
      assert Switchable(subs[i]);
      EnteredAfterQuits(calls, Both(subs, Deactivate, false), n);
    }
  }

  lemma SwitchedAlternates(subs: seq<SubState>, calls: seq<Call>)
    requires UniqueNames(subs) && Matches(subs, calls) && Alternates(calls)
    requires forall i :: 0 <= i < |subs| ==> Switchable(subs[i])
    ensures Alternates(calls + HandlerCalls(subs))
  {
    var quits, enters := Both(subs, Deactivate, false), Both(subs, Activate, true);
    QuitsAreEntered(subs, calls);
    BothDistinct(subs, Deactivate, false);
    AlternatesAfterQuits(calls, quits);
    EntersAreQuit(subs, calls);
    BothDistinct(subs, Activate, true);
    AlternatesAfterEnters(calls + Quits(quits), enters);
    QuitsBeforeEnters(subs, calls);
  }

  lemma SwitchedOnlyKnown(subs: seq<SubState>, calls: seq<Call>)
    requires OnlyKnown(subs, calls)
    ensures OnlyKnown(Switched(subs), calls + HandlerCalls(subs))
  {
    forall n | Absent(Switched(subs), n) ensures !Entered(calls + HandlerCalls(subs), n) {
      forall i | 0 <= i < |subs| ensures subs[i].name != n { assert Switched(subs)[i].name != n; }
      HandlerCallsEntered(subs, calls, n);
      if n in Both(subs, Activate, true) { var i := BothFrom(subs, Activate, true, n); }
    }
  }

  // ---------- all sections ----------

  lemma MarkedSwitchable(subs: seq<SubState>, current: Name, desired: Name)
    requires Config(subs) && (ActiveIn(subs, current) || (current == NEUTRAL && AllInactive(subs)))
    ensures forall i :: 0 <= i < |subs| ==> Switchable(Marked(subs, current, desired)[i])
  {
    forall i | 0 <= i < |subs| ensures Switchable(Mark(subs[i], current, desired)) {
      if current in subs[i].mainstates && !subs[i].active { ReservedApart(subs, i, NEUTRAL); }
    }
  }

  lemma TraceFrame(a: seq<SubState>, b: seq<SubState>, calls: seq<Call>)
    requires |a| == |b| && forall i :: 0 <= i < |a| ==> a[i].name == b[i].name && a[i].active == b[i].active
    requires Matches(a, calls) && OnlyKnown(a, calls)
    ensures Matches(b, calls) && OnlyKnown(b, calls)
  {
    forall n | Absent(b, n) ensures !Entered(calls, n) {
      assert Absent(a, n) by { forall i | 0 <= i < |a| ensures a[i].name != n { assert b[i].name != n; } }
    }
  }

  lemma PerformTraced(subs: seq<SubState>, current: Name, desired: Name, calls: seq<Call>)
    requires Config(subs) && (ActiveIn(subs, current) || (current == NEUTRAL && AllInactive(subs)))
    requires Matches(subs, calls) && OnlyKnown(subs, calls) && Alternates(calls)
    ensures var marked := Marked(subs, current, desired); var calls' := calls + HandlerCalls(marked);
      && Matches(marked, calls) && OnlyKnown(marked, calls)
      && Matches(Switched(marked), calls') && OnlyKnown(Switched(marked), calls') && Alternates(calls')
  {
    var marked := Marked(subs, current, desired);
    TraceFrame(subs, marked, calls);
    assert UniqueNames(marked);
    MarkedSwitchable(subs, current, desired);
    SwitchedMatches(marked, calls);
    SwitchedAlternates(marked, calls);
    SwitchedOnlyKnown(marked, calls);
  }

  lemma UpdateStateTraced(s: State)
    requires Config(s.subs) && ActiveSet(s) && Traced(s)
    ensures Traced(UpdateState(s))
  {
    PerformTraced(s.subs, s.current, s.desired.state, s.h.calls);
    UpdateStateEffect(s);
  }

  lemma DispatchTraced(s: State)
    requires Inv(s) && Traced(s)
    ensures Traced(Dispatch(s))
  {
    if s.dispatching && s.queue != [] {
      UpdateStateTraced(Dequeue(s));
    }
  }

  lemma CountDownTraced(s: State, i: nat)
    requires Traced(s) && i < |s.subs|
    ensures Traced(CountDown(s, i))
  {
    TraceFrame(s.subs, CountDown(s, i).subs, s.h.calls);
  }

  lemma ReleaseTraced(s: State, n: Name)
    requires Inv(s) && Traced(s)
    ensures Traced(Release(s, n))
  {
    if ReleaseStatus(s, n) == OK {
      var i := Find(s.subs, n).value;
      var c := CountDown(s, i);
      assert Config(c.subs) && ActiveSet(c) by { CountDownKeepsCore(s, i); }
      CountDownTraced(s, i);
      UpdateStateTraced(c);
    }
  }

  lemma DefinedTraced(subs: seq<SubState>, m: Name, n: Name, calls: seq<Call>)
    requires Config(subs) && Matches(subs, calls) && OnlyKnown(subs, calls)
    ensures Matches(Defined(subs, m, n), calls) && OnlyKnown(Defined(subs, m, n), calls)
  {
    var a := With(subs, 4, m);
    TraceFrame(subs, a, calls);
    var at := Find(a, n);
    if at.Some? {
      TraceFrame(a, With(a, at.value, m), calls);
    } else {
      assert Absent(a, n);
      var r := a + [SubState(n, [m], 0, Keep, false)];
      forall x | Absent(r, x) ensures !Entered(calls, x) {
        assert Absent(a, x) by { forall i | 0 <= i < |a| ensures a[i].name != x { assert r[i].name != x; } }
      }
    }
  }

  lemma DefineStatesTraced(s: State, m: Name, n: Name)
    requires Config(s.subs) && Traced(s)
    ensures Traced(DefineStates(s, m, n).0)
  {
    DefineStatesOutcome(s, m, n);
    DefinedTraced(s.subs, m, n, s.h.calls);
  }

  lemma CountTraced(s: State, i: nat, d: int)
    requires Traced(s) && i < |s.subs|
    ensures Traced(Bump(s, i, d))
  {
    TraceFrame(s.subs, Bump(s, i, d).subs, s.h.calls);
  }

  lemma AcquireTraced(s: State, n: Name, reserved: bool)
    requires Traced(s)
    ensures Traced(BeginAcquire(s, n).0) && Traced(ResumeAcquire(s, n, reserved).0) && Traced(TryAcquire(s, n).0)
  {
    var at := Find(s.subs, n);
    if at.Some? {
      CountTraced(s, at.value, 1);
      CountTraced(s, at.value, -1);
      CountTraced(Bump(s, at.value, 1), at.value, -1);
    }
  }

  lemma OthersTraced(s: State, op: Op)
    requires Traced(s)
    requires op.OpSetMainState? || op.OpSetWaitState? || op.OpEnterInitialState? || op.OpSetUpInitialState? || op.OpActivate?
    ensures Traced(Step(s, op))
  {
    var s' := Step(s, op);
    assert s'.subs == s.subs && s'.h.calls == s.h.calls;
  }

  /** Every section keeps the handler's view right. */
  lemma StepTraced(s: State, op: Op)
    requires Inv(s) && Traced(s)
    ensures Traced(Step(s, op))
  {
    match op
    case OpDispatch => DispatchTraced(s);
    case OpAcquire(n) => AcquireTraced(s, n, false);
    case OpResumeAcquire(n, reserved) => AcquireTraced(s, n, reserved);
    case OpTryAcquire(n) => AcquireTraced(s, n, false);
    case OpRelease(n) => ReleaseTraced(s, n);
    case OpDefineStates(m, n) => DefineStatesTraced(s, m, n);
    case _ => OthersTraced(s, op);
  }

  /** At any time, after any sequence of sections, the handler has been told to
      enter exactly the active substates, each entered and quit in alternation. */
  lemma {:induction false} AlwaysTraced(ops: seq<Op>)
    ensures Traced(Run(Boot(), ops))
  {
    if ops == [] {
      forall n | Absent(Boot().subs, n) ensures !Entered([], n) { assert Boot().subs[0].name != n; }
    } else {
      AlwaysTraced(ops[..|ops| - 1]);
      AlwaysInv(ops[..|ops| - 1]);
      StepTraced(Run(Boot(), ops[..|ops| - 1]), ops[|ops| - 1]);
    }
  }

  // ---------- the order of the calls of one change ----------

  /** All quits come before all enters, "nonneutral" is the last to be quit and
      the first to be entered. */
  ghost predicate Ordered(calls: seq<Call>) {
    forall i, j :: 0 <= i < j < |calls| ==>
      && (calls[i].Enter? ==> calls[j].Enter?)
      && (calls[i] == Quit(NONNEUTRAL_LOWER) ==> calls[j].Enter?)
      && (calls[j] == Enter(NONNEUTRAL_LOWER) ==> calls[i].Quit?)
  }

  lemma AffectedSpecial(subs: seq<SubState>, a: Action, special: bool)
    requires UniqueNames(subs)
    ensures special ==> |Affected(subs, a, special)| <= 1
    ensures !special ==> forall n :: n in Affected(subs, a, special) ==> n != NONNEUTRAL_LOWER
  {
    var r := Affected(subs, a, special);
    forall i | 0 <= i < |r| ensures (r[i] == NONNEUTRAL_LOWER) == special { AffectedFrom(subs, a, special, r[i]); }
    AffectedDistinct(subs, a, special);
    assert |r| >= 2 ==> r[0] != r[1];
  }

  lemma HandlerCallsOrdered(subs: seq<SubState>)
    requires UniqueNames(subs)
    ensures Ordered(HandlerCalls(subs))
  {
    AffectedSpecial(subs, Deactivate, false);
    AffectedSpecial(subs, Deactivate, true);
    AffectedSpecial(subs, Activate, true);
    AffectedSpecial(subs, Activate, false);
    QuitsThenEnters(Affected(subs, Deactivate, false), Affected(subs, Deactivate, true),
                    Affected(subs, Activate, true), Affected(subs, Activate, false));
  }

  lemma QuitsThenEnters(q0: seq<Name>, q1: seq<Name>, e1: seq<Name>, e0: seq<Name>)
    requires |q1| <= 1 && |e1| <= 1
    requires forall n :: n in q0 ==> n != NONNEUTRAL_LOWER
    requires forall n :: n in e0 ==> n != NONNEUTRAL_LOWER
    ensures Ordered(Quits(q0 + q1) + Enters(e1 + e0))
  {
    var r := Quits(q0 + q1) + Enters(e1 + e0);
    var m := |q0| + |q1|;
    assert forall k :: 0 <= k < |q0| ==> q0[k] in q0;
    assert forall k :: 0 <= k < |e0| ==> e0[k] in e0;
    assert forall k :: 0 <= k < m ==> r[k] == Quit((q0 + q1)[k]);
    assert forall k :: m <= k < |r| ==> r[k] == Enter((e1 + e0)[k - m]);
    assert forall k :: 0 <= k < m - 1 ==> r[k] == Quit(q0[k]);
    assert forall k :: m + 1 <= k < |r| ==> r[k] == Enter(e0[k - m - |e1|]);
  }

  /** What a section adds to the handler calls of `calls` is in order. */
  ghost predicate AddsInOrder(calls: seq<Call>, more: seq<Call>) {
    calls <= more && Ordered(more[|calls|..])
  }

  lemma AddedInOrder(calls: seq<Call>, added: seq<Call>)
    requires Ordered(added)
    ensures AddsInOrder(calls, calls + added)
  {
    assert (calls + added)[|calls|..] == added;
  }

  lemma UpdateStateOrdered(s: State)
    requires UniqueNames(s.subs)
    ensures AddsInOrder(s.h.calls, UpdateState(s).h.calls)
  {
    var marked := Marked(s.subs, s.current, s.desired.state);
    assert UniqueNames(marked);
    HandlerCallsOrdered(marked);
    AddedInOrder(s.h.calls, HandlerCalls(marked));
    AddedInOrder(s.h.calls, []);
    assert s.h.calls + [] == s.h.calls;
    UpdateStateEffect(s);
  }

  lemma CountDownOrdered(s: State, i: nat)
    requires UniqueNames(s.subs) && i < |s.subs|
    ensures UniqueNames(CountDown(s, i).subs) && CountDown(s, i).h.calls == s.h.calls
  {
  }

  lemma ReleaseOrdered(s: State, n: Name)
    requires UniqueNames(s.subs)
    ensures AddsInOrder(s.h.calls, Release(s, n).h.calls)
  {
    if ReleaseStatus(s, n) == OK {
      CountDownOrdered(s, Find(s.subs, n).value);
      UpdateStateOrdered(CountDown(s, Find(s.subs, n).value));
    } else {
      AddedInOrder(s.h.calls, []);
      assert s.h.calls + [] == s.h.calls;
    }
  }

  lemma DispatchOrdered(s: State)
    requires UniqueNames(s.subs)
    ensures AddsInOrder(s.h.calls, Dispatch(s).h.calls)
  {
    if s.dispatching && s.queue != [] {
      UpdateStateOrdered(Dequeue(s));
    }
  }

  lemma OthersCallNothing(s: State, op: Op)
    requires !op.OpDispatch? && !op.OpRelease?
    ensures Step(s, op).h.calls == s.h.calls
  {
    if IsQuiet(op) {
      QuietFrame(s, op);
    }
  }

  /** The handler calls that one section makes are in order. */
  lemma StepOrdered(s: State, op: Op)
    requires Inv(s)
    ensures AddsInOrder(s.h.calls, Step(s, op).h.calls)
  {
    match op
    case OpDispatch => DispatchOrdered(s);
    case OpRelease(n) => ReleaseOrdered(s, n);
    case _ => OthersCallNothing(s, op);
  }
}
