/** The Neutral that a deactivation leads to, where no substate is active, not even
    "neutral". */
module StateBare {
  import opened Names
  import opened StateModel
  import opened StateConfig
  import opened StateInvariant
  import opened StateTrace
  import opened StateSystem
  import opened StateRuns
  import opened StateScenario

  ghost predicate Bare(s: State) { s.current == NEUTRAL && AllInactive(s.subs) }

  /** Only callers of "neutral" can delay leaving it. */
  lemma NeutralLocks(subs: seq<SubState>, d: Name)
    requires Config(subs) && d != NEUTRAL
    ensures Locked(Marked(subs, NEUTRAL, d)) <==> subs[1].cnt != 0
  {
    var marked := Marked(subs, NEUTRAL, d);
    assert Blocks(marked[1]) <==> subs[1].cnt != 0;
    forall i | 0 <= i < |subs| && Blocks(marked[i]) ensures i == 1 {
      ReservedApart(subs, i, NEUTRAL);
    }
  }

  // ---------- the handler calls that leave it ----------

  /** A section quits `n` although the handler has not been told of its entry. */
  ghost predicate QuitsUnentered(s: State, s': State, n: Name) {
    s.h.calls <= s'.h.calls && Quit(n) in s'.h.calls[|s.h.calls|..] && !Entered(s.h.calls, n)
  }

  lemma QuitsExactly(subs: seq<SubState>, n: Name)
    ensures Quit(n) in HandlerCalls(subs) <==> n in Both(subs, Deactivate, false)
  {
    var quits, calls := Both(subs, Deactivate, false), HandlerCalls(subs);
    assert calls == Quits(quits) + Enters(Both(subs, Activate, true));
    if n in quits {
      var k :| 0 <= k < |quits| && quits[k] == n;
      assert calls[k] == Quit(n);
    }
  }

  /** Whether a change quits an inactive substate. */
  lemma QuitsInactive(subs: seq<SubState>, current: Name, d: Name, calls: seq<Call>, n: Name)
    requires Config(subs) && Matches(subs, calls) && OnlyKnown(subs, calls) && d != current
    requires ActiveIn(subs, current) || (current == NEUTRAL && AllInactive(subs))
    ensures Quit(n) in HandlerCalls(Marked(subs, current, d)) && !Entered(calls, n)
      <==> n == NEUTRAL_LOWER && current == NEUTRAL && AllInactive(subs)
  {
    var marked := Marked(subs, current, d);
    QuitsExactly(marked, n);
    assert UniqueNames(marked);
    if n in Both(marked, Deactivate, false) && !Entered(calls, n) {
      var i := BothFrom(marked, Deactivate, false, n);
      assert !subs[i].active;
      ReservedApart(subs, i, NEUTRAL);
    }
    if n == NEUTRAL_LOWER && current == NEUTRAL && AllInactive(subs) {
      BothExact(marked, Deactivate, false, 1);
      assert subs[1].name == NEUTRAL_LOWER && !subs[1].active;
    }
  }

  lemma UpdateQuits(s: State, n: Name)
    requires Core(s) && Traced(s)
    ensures QuitsUnentered(s, UpdateState(s), n)
      <==> n == NEUTRAL_LOWER && Bare(s) && s.pending && s.desired.state != NEUTRAL
           && Acceptable(s.subs, s.desired.state) && s.subs[1].cnt == 0
  {
    var r := UpdateState(s);
    if s.pending && s.desired.state != s.current && Acceptable(s.subs, s.desired.state) {
      if s.current == NEUTRAL { NeutralLocks(s.subs, s.desired.state); }
      QuitsInactive(s.subs, s.current, s.desired.state, s.h.calls, n);
      UpdateCalls(s);
    } else {
      assert r.h.calls == s.h.calls && r.h.calls[|s.h.calls|..] == [];
    }
  }

  lemma UpdateCalls(s: State)
    requires s.pending && s.desired.state != s.current && Acceptable(s.subs, s.desired.state)
    ensures var r, marked := UpdateState(s), Marked(s.subs, s.current, s.desired.state);
      s.h.calls <= r.h.calls
      && r.h.calls[|s.h.calls|..] == if Locked(marked) then [] else HandlerCalls(marked)
  {
    var marked := s.(subs := Marked(s.subs, s.current, s.desired.state));
    if Locked(marked.subs) {
      assert UpdateState(s) == marked;
      AddedCalls(s.h.calls, []);
    } else {
      assert UpdateState(s) == Settle(Perform(marked), OK);
      PerformedEffect(s, marked);
      AddedCalls(s.h.calls, HandlerCalls(marked.subs));
    }
  }

  lemma AddedCalls(calls: seq<Call>, added: seq<Call>)
    ensures calls <= calls + added && (calls + added)[|calls|..] == added
    ensures added == [] ==> calls + added == calls
  {
  }

  /** A release in a bare Neutral performs no change: what is counted is inactive. */
  lemma ReleaseChangesNothing(s: State, n: Name)
    requires Inv(s) && Bare(s)
    ensures Release(s, n).h.calls == s.h.calls && Bare(Release(s, n))
  {
    if ReleaseStatus(s, n) == OK {
      var c := CountDown(s, Find(s.subs, n).value);
      assert c.subs == s.subs && c.pending == s.pending && c.desired == s.desired && c.current == s.current;
      assert c.h.calls == s.h.calls;
      if s.pending {
        PendingDecided(c);
        UpdateStateEffect(c);
      }
    }
  }

  lemma ReleaseQuits(s: State, op: Op, n: Name)
    requires Inv(s) && Traced(s) && op.OpRelease?
    ensures !QuitsUnentered(s, Step(s, op), n)
  {
    if Bare(s) {
      ReleaseChangesNothing(s, op.sub);
      assert s.h.calls[|s.h.calls|..] == [];
    } else if ReleaseStatus(s, op.sub) == OK {
      var i := Find(s.subs, op.sub).value;
      CountDownKeepsCore(s, i);
      CountDownTraced(s, i);
      CountDownOrdered(s, i);
      UpdateQuits(CountDown(s, i), n);
      NotBare(s, i);
    } else {
      assert s.h.calls[|s.h.calls|..] == [];
    }
  }

  lemma NotBare(s: State, i: nat)
    requires !Bare(s) && i < |s.subs|
    ensures !Bare(CountDown(s, i))
  {
    if s.current == NEUTRAL {
      var j :| 0 <= j < |s.subs| && s.subs[j].active;
      assert CountDown(s, i).subs[j].active;
    }
  }

  /** The only substate that is ever quit without having been entered is "neutral", and
      this happens if and only if the update thread performs a change in a bare
      Neutral: it takes a known request for another main state, and nobody counts on
      "neutral". A further deactivation does it too. */
  lemma QuitUnentered(s: State, op: Op, n: Name)
    requires Inv(s) && Traced(s)
    ensures QuitsUnentered(s, Step(s, op), n)
      <==> n == NEUTRAL_LOWER && Bare(s) && op.OpDispatch? && s.dispatching && s.queue != []
           && s.queue[0].state != NEUTRAL && Acceptable(s.subs, s.queue[0].state) && s.subs[1].cnt == 0
  {
    match op
    case OpDispatch =>
      if s.dispatching && s.queue != [] {
        DequeueKeepsCore(s);
        UpdateQuits(Dequeue(s), n);
      } else {
        assert s.h.calls[|s.h.calls|..] == [];
      }
    case OpRelease(_) => ReleaseQuits(s, op, n);
    case _ =>
      OthersCallNothing(s, op);
      assert s.h.calls[|s.h.calls|..] == [];
  }

  // ---------- waiting for "neutral" ----------

  /** A bare Neutral with a count of "neutral". */
  ghost predicate Trapped(s: State) { Bare(s) && |s.subs| > 1 && s.subs[1].cnt > 0 }

  lemma UpdateTrapped(s: State)
    requires Core(s) && Trapped(s)
    ensures Trapped(UpdateState(s))
  {
    if s.pending && s.desired.state != NEUTRAL {
      NeutralLocks(s.subs, s.desired.state);
    }
  }

  lemma CountTrapped(s: State, n: Name, reserved: bool)
    requires Trapped(s)
    ensures Trapped(BeginAcquire(s, n).0) && Trapped(TryAcquire(s, n).0) && Trapped(ResumeAcquire(s, n, reserved).0)
  {
  }

  lemma OthersTrapped(s: State, op: Op)
    requires Inv(s) && Trapped(s) && !op.OpDispatch? && !op.OpRelease?
    requires !op.OpAcquire? && !op.OpTryAcquire? && !op.OpResumeAcquire?
    ensures Trapped(Step(s, op))
  {
    if op.OpDefineStates? {
      DefineStatesOutcome(s, op.state, op.sub);
    } else {
      RequestsKeepSubs(s, op);
    }
  }

  lemma StepTrapped(s: State, op: Op)
    requires Inv(s) && Trapped(s)
    ensures Trapped(Step(s, op))
  {
    match op
    case OpDispatch =>
      if s.dispatching && s.queue != [] {
        DequeueKeepsCore(s);
        UpdateTrapped(Dequeue(s));
      }
    case OpRelease(n) =>
      if ReleaseStatus(s, n) == OK {
        CountDownKeepsCore(s, Find(s.subs, n).value);
        UpdateTrapped(CountDown(s, Find(s.subs, n).value));
      }
    case OpAcquire(n) => CountTrapped(s, n, false);
    case OpTryAcquire(n) => CountTrapped(s, n, false);
    case OpResumeAcquire(n, reserved) => CountTrapped(s, n, reserved);
    case _ => OthersTrapped(s, op);
  }

  /** Once a caller waits for "neutral" in a bare Neutral, the component never leaves it,
      not even for Shutdown, whatever happens. */
  lemma {:induction false} TrappedForever(s: State, ops: seq<Op>)
    requires Inv(s) && Trapped(s)
    ensures Inv(Run(s, ops)) && Trapped(Run(s, ops))
  {
    if ops != [] {
      TrappedForever(s, ops[..|ops| - 1]);
      StepKeeps(Run(s, ops[..|ops| - 1]), ops[|ops| - 1]);
      StepTrapped(Run(s, ops[..|ops| - 1]), ops[|ops| - 1]);
    }
  }

  /** To wait for "neutral" there with nothing pending is enough. */
  lemma AcquireTraps(s: State)
    requires Inv(s) && Bare(s) && s.running && !s.pending
    ensures BeginAcquire(s, NEUTRAL_LOWER).1 == Waits(true) && Trapped(BeginAcquire(s, NEUTRAL_LOWER).0)
  {
    FindAt(s.subs, 1);
  }

  // ---------- a run that gets there ----------

  /** A master deactivates the component, and a caller acquires "neutral". */
  function TrappingRun(): seq<Event> {
    Startup() + [MasterAsks(1, DEACTIVATED), Turn] + [Acquires(1, NEUTRAL_LOWER)]
  }

  lemma Deactivates(sys: System)
    requires SysInv(sys) && RestsIn(sys.slave, INIT, ALIVE, 0)
    ensures var sys' := Next(Next(sys, MasterAsks(1, DEACTIVATED)), Turn);
      SysInv(sys') && Bare(sys'.slave) && sys'.slave.running && !sys'.slave.pending && sys'.sessions.Keys == sys.sessions.Keys
  {
    var asked := Next(sys, MasterAsks(1, DEACTIVATED));
    NextKeeps(sys, MasterAsks(1, DEACTIVATED));
    NextKeeps(asked, Turn);
    var d := Dequeue(asked.slave);
    assert d.desired.state == DEACTIVATED && d.subs == SubsAt(INIT, ALIVE, 0);
    LockedAt(INIT, ALIVE, DEACTIVATED, 0);
    DequeueKeepsCore(asked.slave);
    assert UpdateState(d) == Settle(Perform(d.(subs := Marked(d.subs, ALIVE, DEACTIVATED))), OK);
    DeactivationIsBare(d);
  }

  lemma DeactivatedRun(r: seq<Event>)
    requires RestsIn(RunAll(r).slave, INIT, ALIVE, 0)
    ensures var s := RunAll(r + [MasterAsks(1, DEACTIVATED), Turn]).slave;
      Inv(s) && Bare(s) && s.running && !s.pending
    ensures RunAll(r).sessions == map[] ==> RunAll(r + [MasterAsks(1, DEACTIVATED), Turn]).sessions == map[]
  {
    AlwaysSysInv(r);
    ExtendTwice(r, MasterAsks(1, DEACTIVATED), Turn);
    Deactivates(RunAll(r));
  }

  lemma TrapsCaller(sys: System)
    requires sys.sessions == map[] && Inv(sys.slave) && Bare(sys.slave) && sys.slave.running && !sys.slave.pending
    ensures Trapped(Next(sys, Acquires(1, NEUTRAL_LOWER)).slave)
  {
    AcquireTraps(sys.slave);
  }

  /** From the end of this run on, the component never leaves Neutral. */
  lemma TrappingRunTraps(ops: seq<Op>)
    ensures Trapped(Run(RunAll(TrappingRun()).slave, ops))
  {
    StartupIsAlive();
    DeactivatedRun(Startup());
    var r := Startup() + [MasterAsks(1, DEACTIVATED), Turn];
    TrapsCaller(RunAll(r));
    AfterConcat(Start(), r, [Acquires(1, NEUTRAL_LOWER)]);
    AfterOne(RunAll(r), Acquires(1, NEUTRAL_LOWER));
    AlwaysSysInv(TrappingRun());
    TrappedForever(RunAll(TrappingRun()).slave, ops);
  }
}
