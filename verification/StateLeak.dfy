/** What an ignored release does to the rest of a run, and a run that has one. */
module StateLeak {
  import opened Names
  import opened StateModel
  import opened StateConfig
  import opened StateInvariant
  import opened StateSystem
  import opened StateRuns
  import opened StateScenario

  lemma DispatchIgnores(s: State)
    ensures Dispatch(s).h.ignored == s.h.ignored
  {
    if s.dispatching && s.queue != [] {
      UpdateStateEffect(Dequeue(s));
    }
  }

  lemma ReleaseIgnores(s: State, n: Name)
    ensures s.h.ignored <= Release(s, n).h.ignored
  {
    if ReleaseStatus(s, n) == OK {
      UpdateStateEffect(CountDown(s, Find(s.subs, n).value));
    }
  }

  lemma StepIgnores(s: State, op: Op)
    ensures s.h.ignored <= Step(s, op).h.ignored
  {
    match op
    case OpDispatch => DispatchIgnores(s);
    case OpRelease(n) => ReleaseIgnores(s, n);
    case _ => if IsQuiet(op) { QuietFrame(s, op); }
  }

  lemma {:induction false} CountPrefix(a: seq<Name>, b: seq<Name>, n: Name)
    requires a <= b
    ensures Count(a, n) <= Count(b, n)
  {
    if a != b {
      CountPrefix(a, b[..|b| - 1], n);
    } else {
      assert a == b;
    }
  }

  ghost predicate Stuck(sys: System, n: Name) {
    SysInv(sys) && IsActive(sys.slave, n) && Count(sys.slave.h.ignored, n) > 0
  }

  lemma StuckStays(sys: System, e: Event, n: Name)
    requires Stuck(sys, n)
    ensures Stuck(Next(sys, e), n)
  {
    var s, sys' := sys.slave, Next(sys, e);
    NextKeeps(sys, e);
    assert CallersNeedActivation(sys);
    NextIsStep(sys, e);
    if sys'.slave != s {
      var op, i := OpOf(sys, e), Find(s.subs, n).value;
      StepIgnores(s, op);
      CountPrefix(s.h.ignored, sys'.slave.h.ignored, n);
      StepKeepsNames(s, op, i);
      assert Conserved(sys', i);
      StepDeactivates(s, op, i);
      FindAt(sys'.slave.subs, i);
    }
  }

  /** One ignored release of a substate is enough: once that substate is active
      again, no state change ever leaves it. */
  lemma {:induction false} IgnoredReleaseBlocks(sys: System, events: seq<Event>, n: Name)
    requires Stuck(sys, n)
    ensures Stuck(After(sys, events), n)
  {
    if events != [] {
      IgnoredReleaseBlocks(sys, events[..|events| - 1], n);
      StuckStays(After(sys, events[..|events| - 1]), events[|events| - 1], n);
    }
  }

  // ---------- a run that gets there ----------

  /** Two callers acquire ARM; the second while a change to Neutral waits for the
      first. It is woken when WORK is entered again, but runs only after Neutral
      is back, and then releases a substate that is not active. */
  function LeakingRun(): seq<Event> {
    Beginning()
    + [Acquires(2, ARM), Releases(1)]
    + [MasterAsks(3, WORK), Turn]
    + [MasterAsks(4, NEUTRAL), Turn]
    + [Wakes(2), Releases(2)]
    + [MasterAsks(5, WORK), Turn]
  }

  lemma Parks(sys: System, p: Name, id: nat)
    requires WaitsForArm(sys.slave, p, 1) && id !in sys.sessions
    ensures var sys' := Next(sys, Acquires(id, ARM));
      sys'.slave == sys.slave && sys'.sessions == sys.sessions[id := Parked(ARM, false, false)]
  {
    FindSame(SubsAt(p, WORK, 1), sys.slave.subs, ARM);
    ArmAt(p, WORK, 1);
  }

  lemma LastCountGone(s: State, p: Name)
    requires WaitsForArm(s, p, 1)
    ensures var r := UpdateState(CountDown(s, 5));
      RestsIn(r, WORK, NEUTRAL, 0) && r.h.woken == s.h.woken + Notices(SubsAt(WORK, NEUTRAL, 0), NEUTRAL)
  {
    var c := CountDown(s, 5);
    var marked := Marked(SubsAt(p, WORK, 0), WORK, NEUTRAL);
    assert c.subs == marked;
    MarkedTwice(SubsAt(p, WORK, 0), WORK, NEUTRAL);
    SwitchedTo(p, WORK, NEUTRAL, 0);
    LockedAt(p, WORK, NEUTRAL, 0);
    Known(p, WORK, 0, NEUTRAL);
    ListedTransfer(SubsAt(p, WORK, 0), marked);
    assert UpdateState(c) == Settle(Perform(c), OK);
  }

  lemma ArmReleased(s: State, p: Name)
    requires WaitsForArm(s, p, 1)
    ensures Find(s.subs, ARM) == Some(5) && Release(s, ARM) == UpdateState(CountDown(s, 5))
  {
    FindSame(SubsAt(p, WORK, 1), s.subs, ARM);
    ArmAt(p, WORK, 1);
  }

  /** The last holder releases ARM, and the change to Neutral is performed. */
  lemma ReleasesArm(sys: System, p: Name, id: nat)
    requires WaitsForArm(sys.slave, p, 1) && OnlyArm(sys.sessions)
    requires id in sys.sessions && sys.sessions[id].Holding?
    ensures var sys' := Next(sys, Releases(id));
      RestsIn(sys'.slave, WORK, NEUTRAL, 0) && sys'.sessions == sys.sessions - {id}
  {
    var s := sys.slave;
    ArmReleased(s, p);
    LastCountGone(s, p);
    ArmAt(WORK, NEUTRAL, 0);
    var told := Notices(SubsAt(WORK, NEUTRAL, 0), NEUTRAL);
    assert Since(s.h.woken, Release(s, ARM).h.woken) == told;
    ToldArm(sys.sessions - {id}, told);
  }

  /** The woken caller counts ARM although it is not active. */
  lemma WakesTooLate(sys: System, p: Name, id: nat)
    requires RestsIn(sys.slave, p, NEUTRAL, 0) && id in sys.sessions && sys.sessions[id] == Parked(ARM, false, true)
    ensures var sys' := Next(sys, Wakes(id));
      RestsIn(sys'.slave, p, NEUTRAL, 1) && sys'.sessions == sys.sessions[id := Holding(ARM, false)]
  {
    ArmAt(p, NEUTRAL, 0);
    ArmAt(p, NEUTRAL, 1);
  }

  lemma ReleaseIgnored(sys: System, p: Name, id: nat)
    requires RestsIn(sys.slave, p, NEUTRAL, 1) && OnlyArm(sys.sessions)
    requires id in sys.sessions && sys.sessions[id].Holding?
    ensures var sys' := Next(sys, Releases(id));
      RestsIn(sys'.slave, p, NEUTRAL, 1) && OnlyArm(sys'.sessions) && Count(sys'.slave.h.ignored, ARM) > 0
  {
    ArmAt(p, NEUTRAL, 1);
    var s := sys.slave;
    assert (s.h.ignored + [ARM])[..|s.h.ignored|] == s.h.ignored;
  }

  lemma SecondParks(r9: seq<Event>)
    requires WaitsForArm(RunAll(r9).slave, ALIVE, 1) && RunAll(r9).sessions == map[1 := Holding(ARM, true)]
    ensures var sys := RunAll(r9 + [Acquires(2, ARM), Releases(1)]);
      RestsIn(sys.slave, WORK, NEUTRAL, 0) && sys.sessions == map[2 := Parked(ARM, false, false)]
  {
    ExtendTwice(r9, Acquires(2, ARM), Releases(1));
    Parks(RunAll(r9), ALIVE, 2);
    ReleasesArm(Next(RunAll(r9), Acquires(2, ARM)), ALIVE, 1);
  }

  lemma SecondIsTold(r11: seq<Event>)
    requires RestsIn(RunAll(r11).slave, WORK, NEUTRAL, 0) && RunAll(r11).sessions == map[2 := Parked(ARM, false, false)]
    ensures var sys := RunAll(r11 + [MasterAsks(3, WORK), Turn] + [MasterAsks(4, NEUTRAL), Turn]);
      RestsIn(sys.slave, WORK, NEUTRAL, 0) && sys.sessions == map[2 := Parked(ARM, false, true)]
  {
    AskedRun(r11, WORK, NEUTRAL, 0, 3, WORK);
    var r13 := r11 + [MasterAsks(3, WORK), Turn];
    assert RunAll(r13).sessions == map[2 := Parked(ARM, false, true)];
    AskedRun(r13, NEUTRAL, WORK, 0, 4, NEUTRAL);
  }

  lemma SecondLeaks(r15: seq<Event>)
    requires RestsIn(RunAll(r15).slave, WORK, NEUTRAL, 0) && RunAll(r15).sessions == map[2 := Parked(ARM, false, true)]
    ensures var sys := RunAll(r15 + [Wakes(2), Releases(2)]);
      RestsIn(sys.slave, WORK, NEUTRAL, 1) && OnlyArm(sys.sessions) && Count(sys.slave.h.ignored, ARM) > 0
  {
    ExtendTwice(r15, Wakes(2), Releases(2));
    WakesTooLate(RunAll(r15), WORK, 2);
    ReleaseIgnored(Next(RunAll(r15), Wakes(2)), WORK, 2);
  }

  /** The run leaks a count: from its end on, no state change ever leaves ARM. */
  lemma LeakingRunIsStuck()
    ensures Stuck(RunAll(LeakingRun()), ARM)
  {
    BeginningBlocks();
    SecondParks(Beginning());
    var r11 := Beginning() + [Acquires(2, ARM), Releases(1)];
    SecondIsTold(r11);
    var r15 := r11 + [MasterAsks(3, WORK), Turn] + [MasterAsks(4, NEUTRAL), Turn];
    SecondLeaks(r15);
    var r17 := r15 + [Wakes(2), Releases(2)];
    var sys := RunAll(r17);
    ExtendTwice(r17, MasterAsks(5, WORK), Turn);
    Asked(sys, WORK, NEUTRAL, 1, 5, WORK);
    ArmAt(NEUTRAL, WORK, 1);
    AlwaysSysInv(LeakingRun());
    var asked := Next(sys, MasterAsks(5, WORK));
    StepIgnores(sys.slave, OpSetMainState(5, WORK));
    StepIgnores(asked.slave, OpDispatch);
    CountPrefix(sys.slave.h.ignored, RunAll(LeakingRun()).slave.h.ignored, ARM);
  }
}
