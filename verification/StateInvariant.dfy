/** What every section keeps, in every interleaving of the sections and with
    spurious wake-ups: the active substates are those of the current main state,
    no performable change is left pending, and Shutdown is final. */
module StateInvariant {
  import opened Names
  import opened StateModel
  import opened StateConfig

  ghost predicate AllInactive(subs: seq<SubState>) {
    forall i :: 0 <= i < |subs| ==> !subs[i].active
  }

  ghost predicate ActiveIn(subs: seq<SubState>, m: Name) {
    forall i :: 0 <= i < |subs| ==> (subs[i].active <==> m in subs[i].mainstates)
  }

  /** The active substates are those of the current main state, except in the
      Neutral that a deactivation leads to, where none is. */
  ghost predicate ActiveSet(s: State) {
    ActiveIn(s.subs, s.current) || (s.current == NEUTRAL && AllInactive(s.subs))
  }

  ghost predicate NonNegative(subs: seq<SubState>) {
    forall i :: 0 <= i < |subs| ==> subs[i].cnt >= 0
  }

  ghost predicate NeverInit(queue: seq<Request>) {
    forall i :: 0 <= i < |queue| ==> queue[i].state != INIT
  }

  /** A request is pending only while it cannot be performed: it asks for another,
      known main state, the actions are those of this change, and a substate that
      must be left is still held. */
  ghost predicate PendingIsBlocked(s: State) {
    s.pending ==>
      && s.desired.state != s.current
      && Acceptable(s.subs, s.desired.state)
      && s.subs == Marked(s.subs, s.current, s.desired.state)
      && Locked(s.subs)
  }

  ghost predicate KnownCurrent(s: State) {
    s.current == ALIVE || Listed(s.subs, s.current)
  }

  ghost predicate Idle(s: State) {
    s.queue == [] && !s.pending && s.current == INIT && forall i :: 0 <= i < |s.subs| ==> s.subs[i].cnt == 0
  }

  /** The part of the invariant that holds even between taking a request from the
      queue and processing it. */
  ghost predicate Core(s: State) {
    && Config(s.subs)
    && (s.initial == NEUTRAL || s.initial in s.subs[4].mainstates)
    && ActiveSet(s)
    && KnownCurrent(s)
    && NeverInit(s.queue)
    && (s.pending ==> s.desired.state != INIT)
    && (!s.pending ==> s.desired.query.None?)
    && (s.current == SHUTDOWN ==> !s.pending)
    && (s.current != SHUTDOWN ==> NonNegative(s.subs))
  }

  ghost predicate Inv(s: State) {
    && Core(s)
    && PendingIsBlocked(s)
    && (s.dispatching <==> s.desired.state != SHUTDOWN)
    && (s.current == SHUTDOWN ==> !s.dispatching)
    && (!s.running ==> Idle(s))
  }

  // ---------- performing a change ----------

  lemma MarkedSame(subs: seq<SubState>, current: Name, desired: Name)
    ensures SameConfig(subs, Marked(subs, current, desired))
  {
  }

  lemma MarkedTwice(subs: seq<SubState>, current: Name, desired: Name)
    ensures Marked(Marked(subs, current, desired), current, desired) == Marked(subs, current, desired)
  {
  }

  lemma SwitchedSame(subs: seq<SubState>)
    ensures SameConfig(subs, Switched(subs))
  {
  }

  /** Switching the marked substates makes exactly the target's substates active,
      and none when the request was a deactivation. */
  lemma SwitchedActive(subs: seq<SubState>, current: Name, desired: Name)
    requires ActiveIn(subs, current) || AllInactive(subs)
    ensures var r := Switched(Marked(subs, current, desired));
      (ActiveIn(subs, current) ==> ActiveIn(r, desired))
      && (AllInactive(subs) ==> forall i :: 0 <= i < |r| ==> (r[i].active <==> desired in subs[i].mainstates && current !in subs[i].mainstates))
  {
  }

  /** A reserved main state belongs to one substate, which belongs to no other. */
  lemma ReservedApart(subs: seq<SubState>, i: nat, m: Name)
    requires Config(subs) && i < |subs| && m in subs[i].mainstates && ReservedMain(m)
    ensures i < 4 && subs[i].mainstates == [m]
  {
  }

  lemma ReservedListed(subs: seq<SubState>)
    requires Config(subs)
    ensures Listed(subs, SHUTDOWN) && Listed(subs, NEUTRAL)
    ensures forall i, m :: 0 <= i < |subs| && m in subs[i].mainstates ==> m != ALIVE && !IsDeactivation(m)
  {
    assert SHUTDOWN in subs[3].mainstates;
    assert NEUTRAL in subs[1].mainstates;
    forall i, m | 0 <= i < |subs| && m in subs[i].mainstates ensures m != ALIVE && !IsDeactivation(m) {
      if ReservedMain(m) { ReservedApart(subs, i, m); }
    }
  }

  lemma SwitchedActiveSet(subs: seq<SubState>, current: Name, desired: Name)
    requires Config(subs) && desired != current
    requires ActiveIn(subs, current) || (current == NEUTRAL && AllInactive(subs))
    ensures var r := Switched(Marked(subs, current, desired));
      if IsDeactivation(desired) then AllInactive(r) else ActiveIn(r, desired)
  {
    var r := Switched(Marked(subs, current, desired));
    SwitchedActive(subs, current, desired);
    ReservedListed(subs);
    if IsDeactivation(desired) {
      forall i | 0 <= i < |r| ensures !r[i].active { assert desired !in subs[i].mainstates; }
    } else if !ActiveIn(subs, current) {
      forall i | 0 <= i < |r| ensures r[i].active <==> desired in r[i].mainstates {
        if NEUTRAL in subs[i].mainstates { ReservedApart(subs, i, NEUTRAL); }
      }
    }
  }

  lemma ListedTransfer(a: seq<SubState>, b: seq<SubState>)
    requires SameConfig(a, b)
    ensures forall m :: Listed(a, m) <==> Listed(b, m)
  {
    forall m ensures Listed(a, m) <==> Listed(b, m) {
      if Listed(a, m) { ListedFrame(a, b, m); }
      if Listed(b, m) { ListedFrame(b, a, m); }
    }
  }

  lemma BlockedCase(s: State)
    requires Core(s) && s.pending && s.desired.state != s.current && Acceptable(s.subs, s.desired.state)
    requires Locked(Marked(s.subs, s.current, s.desired.state))
    ensures var r := s.(subs := Marked(s.subs, s.current, s.desired.state)); Core(r) && PendingIsBlocked(r)
  {
    var subs := Marked(s.subs, s.current, s.desired.state);
    MarkedSame(s.subs, s.current, s.desired.state);
    ConfigFrame(s.subs, subs);
    ListedTransfer(s.subs, subs);
    MarkedTwice(s.subs, s.current, s.desired.state);
  }

  lemma PerformedSubs(subs: seq<SubState>, current: Name, desired: Name)
    requires Config(subs) && desired != current && Acceptable(subs, desired)
    requires ActiveIn(subs, current) || (current == NEUTRAL && AllInactive(subs))
    ensures var r := Switched(Marked(subs, current, desired)); var m := Target(desired);
      && Config(r) && SameConfig(subs, r)
      && (m == ALIVE || Listed(r, m))
      && (ActiveIn(r, m) || (m == NEUTRAL && AllInactive(r)))
  {
    var marked := Marked(subs, current, desired);
    var r := Switched(marked);
    SwitchedActiveSet(subs, current, desired);
    MarkedSame(subs, current, desired);
    SwitchedSame(marked);
    ConfigFrame(subs, r);
    ReservedListed(r);
    if Listed(subs, desired) { ListedFrame(subs, r, desired); }
  }

  lemma PerformedFields(s: State, r: State)
    requires r == Settle(Perform(s.(subs := Marked(s.subs, s.current, s.desired.state))), OK)
    ensures r.subs == Switched(Marked(s.subs, s.current, s.desired.state)) && r.current == Target(s.desired.state)
    ensures r.queue == s.queue && r.initial == s.initial && !r.pending && r.desired.query.None?
  {
  }

  lemma CountsStay(subs: seq<SubState>, current: Name, desired: Name)
    requires NonNegative(subs)
    ensures NonNegative(Switched(Marked(subs, current, desired)))
  {
  }

  lemma PerformedCase(s: State)
    requires Core(s) && s.pending && s.desired.state != s.current && Acceptable(s.subs, s.desired.state)
    ensures Core(Settle(Perform(s.(subs := Marked(s.subs, s.current, s.desired.state))), OK))
  {
    var r := Settle(Perform(s.(subs := Marked(s.subs, s.current, s.desired.state))), OK);
    PerformedFields(s, r);
    PerformedSubs(s.subs, s.current, s.desired.state);
    CountsStay(s.subs, s.current, s.desired.state);
    assert s.subs[4].mainstates == r.subs[4].mainstates;
  }

  /** updateState leaves nothing pending that could be performed. */
  lemma UpdateStateKeeps(s: State)
    requires Core(s)
    ensures Core(UpdateState(s)) && PendingIsBlocked(UpdateState(s))
  {
    if s.pending && s.desired.state != s.current && Acceptable(s.subs, s.desired.state) {
      if Locked(Marked(s.subs, s.current, s.desired.state)) { BlockedCase(s); } else { PerformedCase(s); }
    }
  }

  /** What updateState leaves alone, and how it moves the main state. */
  lemma UpdateStateFrame(s: State)
    ensures var r := UpdateState(s);
      && r.running == s.running && r.dispatching == s.dispatching && r.queue == s.queue && r.initial == s.initial
      && (r.desired.state == s.desired.state || r.desired.state == Target(s.desired.state))
      && (r.current == s.current || (s.pending && r.current == Target(s.desired.state)))
  {
  }

  /** Nothing changes but the pending request. */
  ghost predicate Unmoved(s: State, r: State) {
    && r.subs == s.subs && r.current == s.current
    && r.h.calls == s.h.calls && r.h.woken == s.h.woken && r.h.completed == s.h.completed
  }

  /** The pending change is performed: nothing in its way is held. */
  ghost predicate Performed(s: State, r: State) {
    var marked := Marked(s.subs, s.current, s.desired.state);
    && s.pending && !Locked(marked)
    && r.subs == Switched(marked) && r.current == Target(s.desired.state)
    && r.h.calls == s.h.calls + HandlerCalls(marked)
    && r.h.woken == s.h.woken + Notices(r.subs, r.current)
    && r.h.completed == s.h.completed + AsSeq(s.desired.waiter)
  }

  lemma PerformedEffect(s: State, marked: State)
    requires marked == s.(subs := Marked(s.subs, s.current, s.desired.state)) && s.pending && !Locked(marked.subs)
    ensures Performed(s, Settle(Perform(marked), OK)) && Settle(Perform(marked), OK).h.ignored == s.h.ignored
  {
  }

  /** The three things updateState does: nothing to the substates, mark them, or
      switch them. */
  lemma UpdateStateEffect(s: State)
    ensures var r := UpdateState(s);
      && (|| Unmoved(s, r)
          || Unmoved(s.(subs := Marked(s.subs, s.current, s.desired.state)), r)
          || Performed(s, r))
      && r.h.ignored == s.h.ignored
  {
    if s.pending && s.desired.state != s.current && Acceptable(s.subs, s.desired.state) {
      var marked := s.(subs := Marked(s.subs, s.current, s.desired.state));
      if !Locked(marked.subs) { PerformedEffect(s, marked); }
    }
  }

  // ---------- the sections ----------

  lemma BumpSubs(s: State, i: nat, d: int)
    requires Inv(s) && i < |s.subs|
    ensures var subs := Bump(s, i, d).subs;
      && Config(subs) && SameConfig(s.subs, subs)
      && ((s.current == ALIVE || Listed(subs, s.current)) && (Acceptable(s.subs, s.desired.state) ==> Acceptable(subs, s.desired.state)))
      && (ActiveIn(subs, s.current) || (s.current == NEUTRAL && AllInactive(subs)))
  {
    var subs := Bump(s, i, d).subs;
    ConfigFrame(s.subs, subs);
    ListedTransfer(s.subs, subs);
  }

  lemma BumpPending(s: State, i: nat, d: int)
    requires Inv(s) && s.pending && i < |s.subs|
    requires s.subs[i].action == Deactivate ==> d >= 0
    ensures var subs := Bump(s, i, d).subs; subs == Marked(subs, s.current, s.desired.state) && Locked(subs)
  {
    var subs := Bump(s, i, d).subs;
    var j :| 0 <= j < |s.subs| && Blocks(s.subs[j]);
    assert s.subs[j].cnt >= 0;
    assert Blocks(subs[j]);
    assert subs[i] == Mark(subs[i], s.current, s.desired.state);
  }

  /** Counting a substate up or down keeps the invariant as long as a change that
      waits for it is not thereby made possible. */
  lemma BumpKeeps(s: State, i: nat, d: int)
    requires Inv(s) && s.running && i < |s.subs|
    requires s.current != SHUTDOWN ==> s.subs[i].cnt + d >= 0
    requires s.pending && s.subs[i].action == Deactivate ==> d >= 0
    ensures Inv(Bump(s, i, d))
  {
    BumpSubs(s, i, d);
    if s.pending { BumpPending(s, i, d); }
    assert s.current != SHUTDOWN ==> NonNegative(Bump(s, i, d).subs);
  }

  lemma FinishAcquireKeeps(s: State, i: nat, reserved: bool)
    requires Inv(s) && s.running && i < |s.subs|
    ensures Inv(FinishAcquire(s, i, reserved).0)
  {
    if s.current == SHUTDOWN { BumpKeeps(s, i, -1); } else { BumpKeeps(s, i, 1); }
  }

  lemma BeginAcquireKeeps(s: State, name: Name)
    requires Inv(s)
    ensures Inv(BeginAcquire(s, name).0)
  {
    var at := Find(s.subs, name);
    if s.running && at.Some? {
      BumpKeeps(s, at.value, 1);
      FinishAcquireKeeps(s, at.value, false);
      FinishAcquireKeeps(Bump(s, at.value, 1), at.value, true);
    }
  }

  /** tryAcquire succeeds exactly when acquire would without waiting, and then does
      the same; otherwise it changes nothing. */
  lemma TryAcquireIsAcquire(s: State, name: Name)
    requires Inv(s)
    ensures var (s', status) := TryAcquire(s, name); var (t, outcome) := BeginAcquire(s, name);
      (status == OK <==> outcome == Returned(OK)) && s' == (if status == OK then t else s)
      && (status == UnknownState <==> outcome == Returned(UnknownState))
  {
    var at := Find(s.subs, name);
    if s.running && at.Some? && s.current == SHUTDOWN && !s.subs[at.value].active {
      assert BeginAcquireAt(s, at.value).1 == Returned(NotActivated);
    }
  }

  lemma TryAcquireKeeps(s: State, name: Name)
    requires Inv(s)
    ensures Inv(TryAcquire(s, name).0)
  {
    var at := Find(s.subs, name);
    if s.running && at.Some? { BumpKeeps(s, at.value, 1); }
  }

  lemma CountDownKeepsCore(s: State, i: nat)
    requires Inv(s) && i < |s.subs|
    ensures Core(CountDown(s, i))
  {
    if s.subs[i].active && s.subs[i].cnt > 0 {
      BumpSubs(s, i, -1);
      assert s.current != SHUTDOWN ==> NonNegative(Bump(s, i, -1).subs);
    }
  }

  lemma CountDownFrame(s: State, i: nat)
    requires i < |s.subs|
    ensures var c := CountDown(s, i);
      && c.running == s.running && c.dispatching == s.dispatching && c.queue == s.queue && c.pending == s.pending
      && c.desired == s.desired && c.current == s.current && c.initial == s.initial
      && SameConfig(s.subs, c.subs)
  {
  }

  lemma UpdateStateInv(s: State)
    requires Core(s) && s.running
    requires s.dispatching <==> s.desired.state != SHUTDOWN
    requires s.current == SHUTDOWN ==> !s.dispatching
    ensures Inv(UpdateState(s))
  {
    UpdateStateKeeps(s);
    UpdateStateFrame(s);
  }

  lemma ReleaseKeeps(s: State, name: Name)
    requires Inv(s)
    ensures Inv(Release(s, name))
  {
    if ReleaseStatus(s, name) == OK {
      var i := Find(s.subs, name).value;
      CountDownKeepsCore(s, i);
      CountDownFrame(s, i);
      UpdateStateInv(CountDown(s, i));
    }
  }

  lemma CountDownMarked(s: State, i: nat)
    requires i < |s.subs| && s.subs == Marked(s.subs, s.current, s.desired.state)
    ensures CountDown(s, i).subs == Marked(CountDown(s, i).subs, s.current, s.desired.state)
  {
    assert s.subs[i] == Mark(s.subs[i], s.current, s.desired.state);
  }

  /** A release settles the pending change if and only if it leaves no held
      substate among those to be left. */
  lemma LastReleaseCompletes(s: State, name: Name)
    requires Inv(s) && s.pending && ReleaseStatus(s, name) == OK
    ensures !Release(s, name).pending <==> !Locked(CountDown(s, Find(s.subs, name).value).subs)
    ensures !Release(s, name).pending ==> Release(s, name).current == Target(s.desired.state)
  {
    var i := Find(s.subs, name).value;
    var c := CountDown(s, i);
    CountDownFrame(s, i);
    CountDownMarked(s, i);
    assert Acceptable(c.subs, c.desired.state) by { ListedTransfer(s.subs, c.subs); }
    PendingDecided(c);
  }

  /** A deactivation that is performed ends in Neutral with no substate active, not
      even "neutral". */
  lemma DeactivationIsBare(s: State)
    requires Core(s) && s.pending && IsDeactivation(s.desired.state) && !UpdateState(s).pending
    ensures UpdateState(s).current == NEUTRAL && AllInactive(UpdateState(s).subs)
  {
    ReservedListed(s.subs);
    assert s.desired.state != s.current;
    SwitchedActiveSet(s.subs, s.current, s.desired.state);
    PerformedEffect(s, s.(subs := Marked(s.subs, s.current, s.desired.state)));
  }

  lemma PendingDecided(s: State)
    requires s.pending && s.desired.state != s.current && Acceptable(s.subs, s.desired.state)
    requires s.subs == Marked(s.subs, s.current, s.desired.state)
    ensures !UpdateState(s).pending <==> !Locked(s.subs)
    ensures !UpdateState(s).pending ==> UpdateState(s).current == Target(s.desired.state)
  {
    assert s.(subs := Marked(s.subs, s.current, s.desired.state)) == s;
  }

  lemma DequeueKeepsCore(s: State)
    requires Inv(s) && s.queue != [] && s.dispatching
    ensures Core(Dequeue(s))
  {
    assert NeverInit(s.queue[1..]);
  }

  lemma DispatchKeeps(s: State)
    requires Inv(s)
    ensures Inv(Dispatch(s))
  {
    if s.dispatching && s.queue != [] {
      var d := Dequeue(s);
      DequeueKeepsCore(s);
      UpdateStateKeeps(d);
      UpdateStateFrame(d);
    }
  }

  lemma RequestsKeep(s: State, r: Request)
    requires Inv(s) && s.running && r.state != INIT
    ensures Inv(PushHead(s, r)) && Inv(PushTail(s, r))
  {
    assert NeverInit([r] + s.queue) && NeverInit(s.queue + [r]);
  }

  lemma DefineStatesKeeps(s: State, m: Name, n: Name)
    requires Inv(s)
    ensures Inv(DefineStates(s, m, n).0)
  {
    DefineStatesOutcome(s, m, n);
    if !s.running && !ReservedMain(m) && !ReservedSub(n) {
      var subs := Defined(s.subs, m, n);
      DefinedKeepsConfig(s.subs, m, n);
      DefinedSubs(s.subs, m, n);
    }
  }

  ghost predicate InitialSubs(subs: seq<SubState>) {
    ActiveIn(subs, INIT) && Listed(subs, INIT) && forall i :: 0 <= i < |subs| ==> subs[i].cnt == 0
  }

  lemma WithInitialSubs(subs: seq<SubState>, i: nat, m: Name)
    requires i < |subs| && InitialSubs(subs) && m != INIT
    ensures InitialSubs(With(subs, i, m))
  {
    var j :| 0 <= j < |subs| && INIT in subs[j].mainstates;
    assert INIT in With(subs, i, m)[j].mainstates;
  }

  lemma DefinedSubs(subs: seq<SubState>, m: Name, n: Name)
    requires Config(subs) && InitialSubs(subs) && m != INIT
    ensures InitialSubs(Defined(subs, m, n))
    ensures forall x :: x in subs[4].mainstates ==> x in Defined(subs, m, n)[4].mainstates
  {
    WithInitialSubs(subs, 4, m);
    var a := With(subs, 4, m);
    var at := Find(a, n);
    if at.Some? {
      WithInitialSubs(a, at.value, m);
    } else {
      var j :| 0 <= j < |a| && INIT in a[j].mainstates;
      assert INIT in (a + [SubState(n, [m], 0, Keep, false)])[j].mainstates;
    }
  }

  lemma SetUpInitialStateKeeps(s: State, m: Name)
    requires Inv(s)
    ensures Inv(SetUpInitialState(s, m).0)
  {
    FindAt(s.subs, 4);
  }

  lemma InitialNotInit(s: State)
    requires Inv(s)
    ensures s.initial != INIT && !Lifecycle(s.initial)
  {
    assert s.initial in s.subs[4].mainstates ==> !ReservedMain(s.initial);
  }

  /** Sections that touch neither the queue, nor the main state, nor the history. */
  predicate IsQuiet(op: Op) {
    || op.OpAcquire? || op.OpResumeAcquire? || op.OpTryAcquire?
    || op.OpDefineStates? || op.OpSetUpInitialState? || op.OpActivate?
  }

  lemma QuietFrame(s: State, op: Op)
    requires IsQuiet(op)
    ensures var r := Step(s, op);
      && r.h == s.h && r.queue == s.queue && r.desired == s.desired && r.pending == s.pending
      && r.current == s.current && r.dispatching == s.dispatching && (s.running ==> r.running)
  {
  }

  /** Every section keeps the invariant. */
  lemma StepKeeps(s: State, op: Op)
    requires Inv(s)
    ensures Inv(Step(s, op))
  {
    match op
    case OpSetMainState(q, m) => if Refusal(s, m).None? { SetMainStateKeeps(s, q, m); }
    case OpDispatch => DispatchKeeps(s);
    case OpAcquire(n) => BeginAcquireKeeps(s, n);
    case OpResumeAcquire(n, reserved) =>
      if s.running && Find(s.subs, n).Some? { FinishAcquireKeeps(s, Find(s.subs, n).value, reserved); }
    case OpTryAcquire(n) => TryAcquireKeeps(s, n);
    case OpRelease(n) => ReleaseKeeps(s, n);
    case OpSetWaitState(w, m) =>
      if WaitOutcome(s, m).Waits? { RequestsKeep(s, Request(m, None, Some(w))); }
    case OpEnterInitialState(w) =>
      if s.running { InitialNotInit(s); RequestsKeep(s, Request(s.initial, None, Some(w))); }
    case OpDefineStates(m, n) => DefineStatesKeeps(s, m, n);
    case OpSetUpInitialState(m) => SetUpInitialStateKeeps(s, m);
    case OpActivate =>
  }

  lemma SetMainStateKeeps(s: State, q: nat, m: Name)
    requires Inv(s) && Refusal(s, m).None?
    ensures Inv(SetMainState(s, q, m))
  {
    RequestsKeep(s.(h := s.h.(asked := s.h.asked + [Asking(q, m)])), Request(m, Some(q), None));
  }

  lemma BootKeeps()
    ensures Inv(Boot())
  {
    var subs := Boot().subs;
    assert INIT in subs[0].mainstates;
  }

  /** The invariant holds after any sequence of sections. */
  lemma {:induction false} AlwaysInv(ops: seq<Op>)
    ensures Inv(Run(Boot(), ops))
  {
    if ops == [] {
      BootKeeps();
    } else {
      AlwaysInv(ops[..|ops| - 1]);
      StepKeeps(Run(Boot(), ops[..|ops| - 1]), ops[|ops| - 1]);
    }
  }
}
