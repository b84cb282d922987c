/** When the component leaves FatalError although only Shutdown may follow it. */
module StateFatal {
  import opened Names
  import opened StateModel
  import opened StateConfig
  import opened StateInvariant
  import opened StateOrder
  import opened StateSystem
  import opened StateRuns
  import opened StateScenario

  predicate Final(m: Name) { m == FATAL_ERROR || m == SHUTDOWN }

  // ---------- one section ----------

  /** Only callers of the substate "fatalError" can delay leaving FatalError. */
  lemma FatalLocks(subs: seq<SubState>, d: Name)
    requires Config(subs) && d != FATAL_ERROR
    ensures Locked(Marked(subs, FATAL_ERROR, d)) <==> subs[2].cnt != 0
  {
    var marked := Marked(subs, FATAL_ERROR, d);
    assert Blocks(marked[2]) <==> subs[2].cnt != 0;
    forall i | 0 <= i < |subs| && Blocks(marked[i]) ensures i == 2 {
      ReservedApart(subs, i, FATAL_ERROR);
    }
  }

  lemma UpdateLeaves(s: State)
    requires Core(s) && s.current == FATAL_ERROR
    ensures !Final(UpdateState(s).current)
      <==> s.pending && !Final(s.desired.state) && Acceptable(s.subs, s.desired.state) && s.subs[2].cnt == 0
  {
    if s.pending && s.desired.state != FATAL_ERROR {
      FatalLocks(s.subs, s.desired.state);
    }
  }

  /** The update thread leaves FatalError for another state than Shutdown if and only
      if it takes a request for such a state that is known, and nobody counts on
      "fatalError". */
  lemma DispatchLeaves(s: State)
    requires Inv(s) && s.current == FATAL_ERROR
    ensures !Final(Dispatch(s).current)
      <==> s.dispatching && s.queue != [] && !Final(s.queue[0].state) && Acceptable(s.subs, s.queue[0].state)
           && s.subs[2].cnt == 0
  {
    if s.dispatching && s.queue != [] {
      DequeueKeepsCore(s);
      UpdateLeaves(Dequeue(s));
    }
  }

  /** Of a reachable FatalError: its substate is active and counted while a change is
      pending, and found under its name. */
  lemma InFatal(s: State)
    requires Inv(s) && s.current == FATAL_ERROR
    ensures s.running && s.subs[2].active && s.subs[2].cnt >= 0 && Find(s.subs, FATAL_ERROR_CAMEL) == Some(2)
    ensures s.pending ==> s.desired.state != FATAL_ERROR && s.subs[2].cnt != 0
  {
    FindAt(s.subs, 2);
    if s.pending {
      FatalLocks(s.subs, s.desired.state);
    }
  }

  /** A release leaves FatalError for another state than Shutdown if and only if a
      request for such a state is pending and the last count of "fatalError" goes. */
  lemma ReleaseLeaves(s: State, n: Name)
    requires Inv(s) && s.current == FATAL_ERROR
    ensures !Final(Release(s, n).current)
      <==> s.pending && s.desired.state != SHUTDOWN && n == FATAL_ERROR_CAMEL && s.subs[2].cnt == 1
  {
    InFatal(s);
    if ReleaseStatus(s, n) == OK {
      var i := Find(s.subs, n).value;
      CountDownKeepsCore(s, i);
      CountDownFrame(s, i);
      UpdateLeaves(CountDown(s, i));
      ListedTransfer(s.subs, CountDown(s, i).subs);
      CountDownFatal(s, i);
    }
  }

  lemma CountDownFatal(s: State, i: nat)
    requires Inv(s) && s.current == FATAL_ERROR && i < |s.subs|
    ensures CountDown(s, i).subs[2].cnt == if i == 2 && s.subs[2].cnt > 0 then s.subs[2].cnt - 1 else s.subs[2].cnt
  {
    InFatal(s);
  }

  // ---------- runs ----------

  /** The component is in a final state, and nothing asks for any other. */
  ghost predicate OnlyFinal(s: State) {
    s.current == SHUTDOWN
    || (s.current == FATAL_ERROR && (s.pending ==> s.desired.state == SHUTDOWN)
        && forall i :: 0 <= i < |s.queue| ==> Final(s.queue[i].state))
  }

  /** What is pending after a section was pending before, or headed the queue. */
  lemma PendingFrom(s: State, op: Op)
    ensures var s' := Step(s, op);
      s'.pending ==> (s.pending && s'.desired == s.desired) || (s.queue != [] && s'.desired == s.queue[0])
  {
    match op
    case OpDispatch => if s.dispatching && s.queue != [] { UpdateStateDesired(Dequeue(s)); }
    case OpRelease(n) =>
      if ReleaseStatus(s, n) == OK {
        CountDownFrame(s, Find(s.subs, n).value);
        UpdateStateDesired(CountDown(s, Find(s.subs, n).value));
      }
    case _ => if IsQuiet(op) { QuietFrame(s, op); }
  }

  lemma StaysInFinal(s: State, op: Op)
    requires Inv(s) && OnlyFinal(s)
    ensures Final(Step(s, op).current) && (s.current == SHUTDOWN ==> Step(s, op).current == SHUTDOWN)
  {
    if s.current == SHUTDOWN {
      StepLifecycle(s, op);
    } else if op.OpDispatch? {
      DispatchLeaves(s);
    } else if op.OpRelease? {
      ReleaseLeaves(s, op.sub);
    } else {
      OthersKeepMain(s, op);
    }
  }

  lemma OnlyFinalQueued(s: State, s': State, move: Move)
    requires Moves(s, s', move) && forall i :: 0 <= i < |s.queue| ==> Final(s.queue[i].state)
    requires move.AtHead? || move.AtTail? ==> Final(move.request.state)
    ensures forall i :: 0 <= i < |s'.queue| ==> Final(s'.queue[i].state)
  {
  }

  lemma OnlyFinalStays(s: State, op: Op)
    requires Inv(s) && OnlyFinal(s) && !op.OpEnterInitialState?
    ensures OnlyFinal(Step(s, op))
  {
    var s' := Step(s, op);
    StaysInFinal(s, op);
    StepKeeps(s, op);
    if s'.current == FATAL_ERROR {
      FinalStatesAccept(s, op);
      StepMoves(s, op);
      OnlyFinalQueued(s, s', MoveOf(s, op));
      PendingFrom(s, op);
    }
  }

  /** No setWaitState("Alive") is still on its way to the initial main state. */
  ghost predicate NoneEntering(waiters: map<nat, Waiter>) {
    forall w :: w in waiters && waiters[w].Waiting? && waiters[w].asked == ALIVE ==> waiters[w].second
  }

  lemma NoneEnters(sys: System, e: Event)
    requires Final(sys.slave.current) && NoneEntering(sys.waiters)
    ensures NoneEntering(Next(sys, e).waiters)
    ensures e.WaiterWakes? ==> Next(sys, e).slave == sys.slave
  {
  }

  lemma NextOnlyFinal(sys: System, e: Event)
    requires SysInv(sys) && OnlyFinal(sys.slave) && NoneEntering(sys.waiters)
    ensures OnlyFinal(Next(sys, e).slave) && NoneEntering(Next(sys, e).waiters)
  {
    NoneEnters(sys, e);
    if Next(sys, e).slave != sys.slave {
      assert CallersNeedActivation(sys);
      NextIsStep(sys, e);
      OnlyFinalStays(sys.slave, OpOf(sys, e));
    }
  }

  /** From FatalError with nothing pending or queued but Shutdown and FatalError, and
      no setWaitState("Alive") on its way, the component stays in FatalError or goes to
      Shutdown, whatever its callers and masters do. */
  lemma {:induction false} FatalErrorIsFinal(sys: System, events: seq<Event>)
    requires SysInv(sys) && OnlyFinal(sys.slave) && NoneEntering(sys.waiters)
    ensures var sys' := After(sys, events);
      SysInv(sys') && OnlyFinal(sys'.slave) && NoneEntering(sys'.waiters) && Final(sys'.slave.current)
  {
    if events != [] {
      var front := events[..|events| - 1];
      FatalErrorIsFinal(sys, front);
      NextOnlyFinal(After(sys, front), events[|events| - 1]);
      NextKeeps(After(sys, front), events[|events| - 1]);
    }
  }

  // ---------- a run that leaves FatalError ----------

  /** In Alive a master asks for Neutral, and then the component for FatalError. */
  function FatalRun(): seq<Event> {
    Startup() + [MasterAsks(1, NEUTRAL), SetWaits(1, FATAL_ERROR)]
  }

  lemma BothQueued(sys: System)
    requires RestsIn(sys.slave, INIT, ALIVE, 0) && 1 !in sys.waiters
    ensures var sys' := Next(Next(sys, MasterAsks(1, NEUTRAL)), SetWaits(1, FATAL_ERROR));
      RestsWith(sys'.slave, INIT, ALIVE, 0, [Request(FATAL_ERROR, None, Some(1))] + [Request(NEUTRAL, Some(1), None)])
      && sys'.waiters == sys.waiters[1 := Waiting(FATAL_ERROR, FATAL_ERROR, false, false)] && sys'.sessions == sys.sessions
  {
    QueuesTail(sys.slave, INIT, ALIVE, 0, 1, NEUTRAL);
  }

  lemma TurnsFatal(sys: System)
    requires RestsWith(sys.slave, INIT, ALIVE, 0, [Request(FATAL_ERROR, None, Some(1))] + [Request(NEUTRAL, Some(1), None)])
    requires 1 in sys.waiters && sys.waiters[1] == Waiting(FATAL_ERROR, FATAL_ERROR, false, false)
    ensures var sys' := Next(sys, Turn);
      RestsWith(sys'.slave, ALIVE, FATAL_ERROR, 0, [Request(NEUTRAL, Some(1), None)])
      && 1 in sys'.waiters && sys'.waiters[1] == Waiting(FATAL_ERROR, FATAL_ERROR, false, true)
  {
    Performs(sys.slave, INIT, ALIVE, 0, Request(FATAL_ERROR, None, Some(1)), [Request(NEUTRAL, Some(1), None)]);
  }

  lemma TurnsNeutral(sys: System)
    requires RestsWith(sys.slave, ALIVE, FATAL_ERROR, 0, [Request(NEUTRAL, Some(1), None)])
    requires 1 in sys.waiters && sys.waiters[1] == Waiting(FATAL_ERROR, FATAL_ERROR, false, true)
    ensures var sys' := Next(sys, Turn);
      RestsIn(sys'.slave, FATAL_ERROR, NEUTRAL, 0)
      && 1 in sys'.waiters && sys'.waiters[1] == Waiting(FATAL_ERROR, FATAL_ERROR, false, true)
  {
    assert [Request(NEUTRAL, Some(1), None)] + [] == [Request(NEUTRAL, Some(1), None)];
    Performs(sys.slave, ALIVE, FATAL_ERROR, 0, Request(NEUTRAL, Some(1), None), []);
  }

  lemma ReachesFatalError()
    ensures var sys := RunAll(FatalRun() + [Turn]);
      RestsWith(sys.slave, ALIVE, FATAL_ERROR, 0, [Request(NEUTRAL, Some(1), None)])
      && 1 in sys.waiters && sys.waiters[1] == Waiting(FATAL_ERROR, FATAL_ERROR, false, true)
  {
    StartupIsAlive();
    ExtendTwice(Startup(), MasterAsks(1, NEUTRAL), SetWaits(1, FATAL_ERROR));
    BothQueued(RunAll(Startup()));
    AfterConcat(Start(), FatalRun(), [Turn]);
    AfterOne(RunAll(FatalRun()), Turn);
    TurnsFatal(RunAll(FatalRun()));
  }

  lemma ReturnsElsewhere(sys: System)
    requires 1 in sys.waiters && sys.waiters[1] == Waiting(FATAL_ERROR, FATAL_ERROR, false, true)
    ensures var sys' := Next(sys, WaiterWakes(1));
      sys'.slave == sys.slave && 1 in sys'.waiters && sys'.waiters[1] == Finished(FATAL_ERROR)
  {
  }

  /** The component reaches FatalError and goes on to Neutral. */
  lemma LeavesFatalError()
    ensures RunAll(FatalRun() + [Turn]).slave.current == FATAL_ERROR
    ensures var sys := RunAll(FatalRun() + [Turn] + [Turn]);
      RestsIn(sys.slave, FATAL_ERROR, NEUTRAL, 0)
      && 1 in sys.waiters && sys.waiters[1] == Waiting(FATAL_ERROR, FATAL_ERROR, false, true)
  {
    ReachesFatalError();
    AfterConcat(Start(), FatalRun() + [Turn], [Turn]);
    AfterOne(RunAll(FatalRun() + [Turn]), Turn);
    TurnsNeutral(RunAll(FatalRun() + [Turn]));
  }

  /** Only then does the setWaitState("FatalError") return: in Neutral. */
  lemma ReturnsInNeutral()
    ensures var sys := Next(RunAll(FatalRun() + [Turn] + [Turn]), WaiterWakes(1));
      sys.slave.current == NEUTRAL && 1 in sys.waiters && sys.waiters[1] == Finished(FATAL_ERROR)
  {
    LeavesFatalError();
    ReturnsElsewhere(RunAll(FatalRun() + [Turn] + [Turn]));
  }
}
