/** The state slave's setWaitState callers, and what holds in all runs of the
    system. */
module StateRuns {
  import opened Names
  import opened StateModel
  import opened StateConfig
  import opened StateInvariant
  import opened StateSystem

  // ---------- setWaitState callers ----------

  ghost predicate Fits(r: Request, waiters: map<nat, Waiter>) {
    r.waiter.Some? ==>
      && r.waiter.value in waiters
      && (waiters[r.waiter.value].asked == SHUTDOWN ==> r.state == SHUTDOWN)
  }

  /** A notified setWaitState caller finds the component past Init, and in Shutdown
      if that is what it asked for. */
  ghost predicate GoodWaiter(w: Waiter, current: Name) {
    w.Waiting? && w.notified ==> current != INIT && (w.asked == SHUTDOWN ==> current == SHUTDOWN)
  }

  ghost predicate RequestsFit(sys: System) {
    && (forall i :: 0 <= i < |sys.slave.queue| ==> Fits(sys.slave.queue[i], sys.waiters))
    && (sys.slave.pending ==> Fits(sys.slave.desired, sys.waiters))
  }

  /** Before Init is left, only lifecycle requests are made. */
  ghost predicate OnlyLifecycle(s: State) {
    s.current == INIT ==>
      && (forall i :: 0 <= i < |s.queue| ==> Lifecycle(s.queue[i].state))
      && (s.pending ==> Lifecycle(s.desired.state))
  }

  ghost predicate WaitersInv(sys: System) {
    && RequestsFit(sys) && OnlyLifecycle(sys.slave)
    && forall w :: w in sys.waiters ==>
         GoodWaiter(sys.waiters[w], sys.slave.current) && (sys.waiters[w].Waiting? ==> sys.slave.running)
  }

  lemma UpdateStateDesired(s: State)
    ensures UpdateState(s).pending ==> UpdateState(s).desired == s.desired && UpdateState(s).current == s.current
  {
  }

  /** A setWaitState caller is told of the completion of its own request only. */
  lemma UpdateStateGoodWaiter(s: State, waiters: map<nat, Waiter>, w: nat)
    requires Core(s) && w in waiters && GoodWaiter(waiters[w], s.current)
    requires s.pending ==> Fits(s.desired, waiters)
    ensures var r := UpdateState(s);
      GoodWaiter(ToldWaiter(waiters[w], w in Since(s.h.completed, r.h.completed)), r.current)
  {
    var r := UpdateState(s);
    UpdateStateEffect(s);
    if Performed(s, r) {
      assert Since(s.h.completed, r.h.completed) == AsSeq(s.desired.waiter);
    } else {
      assert Since(s.h.completed, r.h.completed) == [];
    }
  }

  lemma UpdateStateRequests(sys: System)
    requires Core(sys.slave) && RequestsFit(sys) && OnlyLifecycle(sys.slave)
    ensures RequestsFit(Absorb(sys, UpdateState(sys.slave))) && OnlyLifecycle(UpdateState(sys.slave))
  {
    var s, r, sys' := sys.slave, UpdateState(sys.slave), Absorb(sys, UpdateState(sys.slave));
    UpdateStateFrame(s);
    UpdateStateDesired(s);
    forall q | Fits(q, sys.waiters) ensures Fits(q, sys'.waiters) {}
  }

  lemma UpdateStateWaiters(sys: System)
    requires Core(sys.slave) && WaitersInv(sys)
    ensures WaitersInv(Absorb(sys, UpdateState(sys.slave)))
  {
    var s, r, sys' := sys.slave, UpdateState(sys.slave), Absorb(sys, UpdateState(sys.slave));
    UpdateStateRequests(sys);
    UpdateStateFrame(s);
    forall w | w in sys'.waiters
      ensures GoodWaiter(sys'.waiters[w], r.current) && (sys'.waiters[w].Waiting? ==> r.running)
    {
      UpdateStateGoodWaiter(s, sys.waiters, w);
    }
  }

  lemma WaitersFrame(sys: System, sys': System)
    requires WaitersInv(sys) && sys'.waiters == sys.waiters
    requires sys'.slave.queue == sys.slave.queue && sys'.slave.pending == sys.slave.pending
    requires sys'.slave.desired == sys.slave.desired && sys'.slave.current == sys.slave.current
    requires sys.slave.running ==> sys'.slave.running
    ensures WaitersInv(sys')
  {
  }

  lemma DequeueWaiters(sys: System)
    requires sys.slave.queue != [] && WaitersInv(sys)
    ensures WaitersInv(sys.(slave := Dequeue(sys.slave)))
  {
    assert Fits(sys.slave.queue[0], sys.waiters);
  }

  lemma TurnWaiters(sys: System)
    requires Inv(sys.slave) && WaitersInv(sys)
    ensures WaitersInv(Next(sys, Turn))
  {
    var s := sys.slave;
    if s.dispatching && s.queue != [] {
      var mid := sys.(slave := Dequeue(s));
      DequeueKeepsCore(s);
      DequeueWaiters(sys);
      UpdateStateWaiters(mid);
      AbsorbSame(sys, mid, UpdateState(mid.slave), Dispatch(s));
      WaitersFrame(Absorb(mid, UpdateState(mid.slave)), Next(sys, Turn));
    } else {
      AbsorbNothing(sys);
    }
  }

  lemma ReleasesWaiters(sys: System, id: nat)
    requires Inv(sys.slave) && SessionsInv(sys) && WaitersInv(sys) && id in sys.sessions && sys.sessions[id].Holding?
    ensures WaitersInv(Next(sys, Releases(id)))
  {
    var i := ReleasesStep(sys, id);
    CountDownKeepsCore(sys.slave, i);
    CountDownFrame(sys.slave, i);
    WaitersFrame(sys, CountedDown(sys, id, i));
    UpdateStateWaiters(CountedDown(sys, id, i));
  }

  lemma PushWaiters(sys: System, sys': System, r: Request)
    requires WaitersInv(sys) && sys'.waiters == sys.waiters && Fits(r, sys.waiters)
    requires sys'.slave.queue == [r] + sys.slave.queue || sys'.slave.queue == sys.slave.queue + [r]
    requires sys'.slave.pending == sys.slave.pending && sys'.slave.desired == sys.slave.desired
    requires sys'.slave.current == sys.slave.current && sys'.slave.running == sys.slave.running
    requires sys.slave.current == INIT ==> Lifecycle(r.state)
    ensures WaitersInv(sys')
  {
    var q, q' := sys.slave.queue, sys'.slave.queue;
    forall i | 0 <= i < |q'| ensures q'[i] == r || exists j :: 0 <= j < |q| && q[j] == q'[i] {
      if q'[i] != r { assert q'[i] in q; }
    }
  }

  lemma MasterAsksWaiters(sys: System, q: nat, m: Name)
    requires WaitersInv(sys)
    ensures WaitersInv(Next(sys, MasterAsks(q, m)))
  {
    if Refusal(sys.slave, m).None? {
      PushWaiters(sys, Next(sys, MasterAsks(q, m)), Request(m, Some(q), None));
    } else {
      WaitersFrame(sys, Next(sys, MasterAsks(q, m)));
    }
  }

  lemma WaiterChanged(sys: System, sys': System, w: nat)
    requires WaitersInv(sys) && sys'.slave == sys.slave && sys'.waiters.Keys == sys.waiters.Keys + {w}
    requires forall v :: v in sys.waiters && v != w ==> sys'.waiters[v] == sys.waiters[v]
    requires w in sys.waiters ==> sys'.waiters[w].asked == sys.waiters[w].asked
    requires sys'.waiters[w].Waiting? ==> !sys'.waiters[w].notified && sys.slave.running
    ensures WaitersInv(sys')
  {
    var q := sys.slave.queue;
    forall i | 0 <= i < |q| ensures Fits(q[i], sys'.waiters) { assert Fits(q[i], sys.waiters); }
    assert Fits(sys.slave.desired, sys.waiters) ==> Fits(sys.slave.desired, sys'.waiters);
  }

  lemma SetWaitsWaiters(sys: System, w: nat, m: Name)
    requires WaitersInv(sys) && w !in sys.waiters
    ensures WaitersInv(Next(sys, SetWaits(w, m)))
  {
    var sys' := Next(sys, SetWaits(w, m));
    var mid := sys.(waiters := sys'.waiters);
    WaiterChanged(sys, mid, w);
    if WaitOutcome(sys.slave, m).Waits? {
      PushWaiters(mid, sys', Request(m, None, Some(w)));
    }
  }

  lemma WaiterWakesWaiters(sys: System, w: nat)
    requires Inv(sys.slave) && WaitersInv(sys)
    requires w in sys.waiters && sys.waiters[w].Waiting? && sys.waiters[w].notified
    ensures WaitersInv(Next(sys, WaiterWakes(w)))
  {
    var sys' := Next(sys, WaiterWakes(w));
    var mid := sys.(waiters := sys'.waiters);
    WaiterChanged(sys, mid, w);
    if sys.waiters[w].asked == ALIVE && !sys.waiters[w].second {
      assert GoodWaiter(sys.waiters[w], sys.slave.current);
      PushWaiters(mid, sys', Request(sys.slave.initial, None, Some(w)));
    }
  }

  lemma OthersWaiters(sys: System, e: Event)
    requires WaitersInv(sys)
    requires QueuesNothing(e)
    ensures WaitersInv(Next(sys, e))
  {
    OthersQueueNothing(sys, e);
    WaitersFrame(sys, Next(sys, e));
  }

  lemma NextWaiters(sys: System, e: Event)
    requires SysInv(sys)
    ensures WaitersInv(Next(sys, e))
  {
    match e
    case Turn => TurnWaiters(sys);
    case MasterAsks(q, m) => MasterAsksWaiters(sys, q, m);
    case Releases(id) => if id in sys.sessions && sys.sessions[id].Holding? { ReleasesWaiters(sys, id); }
    case SetWaits(w, m) => if w !in sys.waiters { SetWaitsWaiters(sys, w, m); }
    case WaiterWakes(w) =>
      if w in sys.waiters && sys.waiters[w].Waiting? && sys.waiters[w].notified { WaiterWakesWaiters(sys, w); }
    case _ => OthersWaiters(sys, e);
  }

  // ---------- runs ----------

  ghost predicate SysInv(sys: System) {
    Inv(sys.slave) && SessionsInv(sys) && WaitersInv(sys)
  }

  /** The section of the slave that an event executes, if it is enabled. */
  function OpOf(sys: System, e: Event): Op {
    match e
    case MasterAsks(q, m) => OpSetMainState(q, m)
    case Turn => OpDispatch
    case Acquires(_, n) => OpAcquire(n)
    case Wakes(id) =>
      if id in sys.sessions && sys.sessions[id].Parked? then OpResumeAcquire(sys.sessions[id].sub, sys.sessions[id].reserved)
      else OpActivate
    case Tries(_, n) => OpTryAcquire(n)
    case Releases(id) => if id in sys.sessions then OpRelease(sys.sessions[id].sub) else OpActivate
    case SetWaits(w, m) => OpSetWaitState(w, m)
    case WaiterWakes(w) => OpEnterInitialState(w)
    case Defines(m, n) => OpDefineStates(m, n)
    case SetsInitial(m) => OpSetUpInitialState(m)
    case Activates => OpActivate
  }

  ghost predicate CallersNeedActivation(sys: System) {
    && (forall id :: id in sys.sessions ==> sys.slave.running)
    && (forall w :: w in sys.waiters && sys.waiters[w].Waiting? ==> sys.slave.running)
  }

  ghost predicate Follows(sys: System, e: Event) {
    Next(sys, e).slave == sys.slave || Next(sys, e).slave == Step(sys.slave, OpOf(sys, e))
  }

  lemma AcquiresIsStep(sys: System, id: nat, n: Name)
    ensures Follows(sys, Acquires(id, n)) && Follows(sys, Tries(id, n))
  {
  }

  lemma WakesIsStep(sys: System, id: nat)
    requires id in sys.sessions ==> sys.slave.running
    ensures Follows(sys, Wakes(id))
  {
  }

  lemma ReleasesSlave(sys: System, id: nat)
    ensures Next(sys, Releases(id)).slave
      == if id in sys.sessions && sys.sessions[id].Holding? then Release(sys.slave, sys.sessions[id].sub) else sys.slave
  {
  }

  lemma ReleasesIsStep(sys: System, id: nat)
    ensures Follows(sys, Releases(id))
  {
    ReleasesSlave(sys, id);
    assert id in sys.sessions ==> Step(sys.slave, OpOf(sys, Releases(id))) == Release(sys.slave, sys.sessions[id].sub);
  }

  lemma OtherEventIsStep(sys: System, e: Event)
    requires CallersNeedActivation(sys) && !(e.Acquires? || e.Wakes? || e.Tries? || e.Releases?)
    ensures Follows(sys, e)
  {
    if e.WaiterWakes? && e.waiter in sys.waiters && sys.waiters[e.waiter].Waiting? { assert sys.slave.running; }
  }

  /** The runs of the system are runs of the slave, so all that is proved of the
      slave's runs holds here too. */
  lemma NextIsStep(sys: System, e: Event)
    requires CallersNeedActivation(sys)
    ensures Next(sys, e).slave == sys.slave || Next(sys, e).slave == Step(sys.slave, OpOf(sys, e))
  {
    assert CallersNeedActivation(sys);
    match e
    case Acquires(id, n) => AcquiresIsStep(sys, id, n);
    case Tries(id, n) => AcquiresIsStep(sys, id, n);
    case Wakes(id) => WakesIsStep(sys, id);
    case Releases(id) => ReleasesIsStep(sys, id);
    case _ => OtherEventIsStep(sys, e);
  }

  /** The sections that a sequence of events executes. */
  function OpsOf(events: seq<Event>): seq<Op> {
    if events == [] then []
    else
      var sys, e := RunAll(events[..|events| - 1]), events[|events| - 1];
      OpsOf(events[..|events| - 1]) + (if Next(sys, e).slave == sys.slave then [] else [OpOf(sys, e)])
  }

  /** In any run of the system, the slave has run the sections of the events. */
  lemma {:induction false} RunsAreRuns(events: seq<Event>)
    ensures RunAll(events).slave == Run(Boot(), OpsOf(events))
  {
    if events != [] {
      var front, e := events[..|events| - 1], events[|events| - 1];
      RunsAreRuns(front);
      AlwaysSysInv(front);
      NextIsRun(RunAll(front), e, OpsOf(front));
    }
  }

  lemma NextIsRun(sys: System, e: Event, ops: seq<Op>)
    requires SysInv(sys) && sys.slave == Run(Boot(), ops)
    ensures Next(sys, e).slave
      == Run(Boot(), ops + (if Next(sys, e).slave == sys.slave then [] else [OpOf(sys, e)]))
  {
    assert CallersNeedActivation(sys);
    NextIsStep(sys, e);
    var op := OpOf(sys, e);
    assert ops + [] == ops && (ops + [op])[..|ops|] == ops;
  }

  lemma NextKeeps(sys: System, e: Event)
    requires SysInv(sys)
    ensures SysInv(Next(sys, e))
  {
    NextSessions(sys, e);
    NextWaiters(sys, e);
    assert CallersNeedActivation(sys);
    NextIsStep(sys, e);
    StepKeeps(sys.slave, OpOf(sys, e));
  }

  lemma StartKeeps()
    ensures SysInv(Start())
  {
    BootKeeps();
    forall i | 0 <= i < |Start().slave.subs| ensures Conserved(Start(), i) {
      assert Users(map[], Start().slave.subs[i].name) == {};
    }
  }

  /** In every run of the system with balanced callers and no spurious wake-up:
      each counter is the number of its holders, parked reservations and ignored
      releases; whoever holds for sure holds an active substate; no parked
      reservation misses an activation. */
  lemma {:induction false} AlwaysSysInv(events: seq<Event>)
    ensures SysInv(RunAll(events))
  {
    if events == [] {
      StartKeeps();
    } else {
      AlwaysSysInv(events[..|events| - 1]);
      NextKeeps(RunAll(events[..|events| - 1]), events[|events| - 1]);
    }
  }

  // ---------- holding ----------

  /** Counting changes counters only. */
  ghost predicate SameButCounts(a: seq<SubState>, b: seq<SubState>) {
    |b| == |a| && forall i :: 0 <= i < |a| ==> b[i].name == a[i].name && b[i].active == a[i].active
  }

  lemma AcquireCounts(s: State, n: Name)
    ensures SameButCounts(s.subs, BeginAcquire(s, n).0.subs)
  {
  }

  lemma ResumeCounts(s: State, n: Name, reserved: bool)
    ensures SameButCounts(s.subs, ResumeAcquire(s, n, reserved).0.subs)
  {
  }

  lemma TryCounts(s: State, n: Name)
    ensures SameButCounts(s.subs, TryAcquire(s, n).0.subs)
  {
  }

  lemma DefineKeeps(s: State, m: Name, n: Name, i: nat)
    requires Config(s.subs) && i < |s.subs|
    ensures var subs := DefineStates(s, m, n).0.subs;
      i < |subs| && subs[i].name == s.subs[i].name && subs[i].active == s.subs[i].active
  {
    DefineStatesOutcome(s, m, n);
  }

  lemma RequestsKeepSubs(s: State, op: Op)
    requires op.OpSetMainState? || op.OpSetWaitState? || op.OpEnterInitialState? || op.OpSetUpInitialState? || op.OpActivate?
    ensures Step(s, op).subs == s.subs
  {
  }

  /** Only performing a change switches substates. */
  lemma OthersKeepActive(s: State, op: Op, i: nat)
    requires Config(s.subs) && i < |s.subs| && !op.OpDispatch? && !op.OpRelease?
    ensures i < |Step(s, op).subs|
    ensures Step(s, op).subs[i].name == s.subs[i].name && Step(s, op).subs[i].active == s.subs[i].active
  {
    match op
    case OpAcquire(n) => AcquireCounts(s, n);
    case OpResumeAcquire(n, reserved) => ResumeCounts(s, n, reserved);
    case OpTryAcquire(n) => TryCounts(s, n);
    case OpDefineStates(m, n) => DefineKeeps(s, m, n, i);
    case _ => RequestsKeepSubs(s, op);
  }

  lemma UpdateStateKeepsNames(s: State)
    ensures SameConfig(s.subs, UpdateState(s).subs)
  {
    UpdateStateEffect(s);
  }

  /** A substate keeps its place in the list. */
  lemma StepKeepsNames(s: State, op: Op, i: nat)
    requires Config(s.subs) && i < |s.subs|
    ensures i < |Step(s, op).subs| && Step(s, op).subs[i].name == s.subs[i].name
  {
    match op
    case OpDispatch => if s.dispatching && s.queue != [] { UpdateStateKeepsNames(Dequeue(s)); }
    case OpRelease(n) =>
      if ReleaseStatus(s, n) == OK {
        CountDownFrame(s, Find(s.subs, n).value);
        UpdateStateKeepsNames(CountDown(s, Find(s.subs, n).value));
      }
    case _ => OthersKeepActive(s, op, i);
  }

  /** Only a substate without a count is ever deactivated. */
  lemma StepDeactivates(s: State, op: Op, i: nat)
    requires Config(s.subs) && i < |s.subs| && s.subs[i].active
    ensures i < |Step(s, op).subs| && (Step(s, op).subs[i].active || Step(s, op).subs[i].cnt == 0)
  {
    match op
    case OpDispatch => if s.dispatching && s.queue != [] { UpdateStateDeactivates(Dequeue(s), i); }
    case OpRelease(n) =>
      if ReleaseStatus(s, n) == OK {
        CountDownFrame(s, Find(s.subs, n).value);
        UpdateStateDeactivates(CountDown(s, Find(s.subs, n).value), i);
      }
    case _ => OthersKeepActive(s, op, i);
  }

  lemma UpdateStateDeactivates(s: State, i: nat)
    requires i < |s.subs| && s.subs[i].active
    ensures i < |UpdateState(s).subs| && (UpdateState(s).subs[i].active || UpdateState(s).subs[i].cnt == 0)
  {
    UpdateStateEffect(s);
    assert !Blocks(Marked(s.subs, s.current, s.desired.state)[i]) || Locked(Marked(s.subs, s.current, s.desired.state));
  }

  ghost predicate Unused(sys: System, n: Name) {
    forall id :: id in sys.sessions ==> !Uses(sys.sessions[id], n)
  }

  /** No substate is deactivated while a caller holds it or is parked with a
      reserved count for it. */
  lemma HoldSafety(events: seq<Event>, e: Event, i: nat)
    ensures var s, sys' := RunAll(events).slave, Next(RunAll(events), e);
      i < |s.subs| && s.subs[i].active ==>
        i < |sys'.slave.subs| && sys'.slave.subs[i].name == s.subs[i].name
        && (sys'.slave.subs[i].active || Unused(sys', s.subs[i].name))
  {
    var sys := RunAll(events);
    AlwaysSysInv(events);
    if i < |sys.slave.subs| && sys.slave.subs[i].active {
      StaysOrUnused(sys, e, i);
    }
  }

  lemma StaysOrUnused(sys: System, e: Event, i: nat)
    requires SysInv(sys) && i < |sys.slave.subs| && sys.slave.subs[i].active
    ensures var sys' := Next(sys, e);
      i < |sys'.slave.subs| && sys'.slave.subs[i].name == sys.slave.subs[i].name
      && (sys'.slave.subs[i].active || Unused(sys', sys.slave.subs[i].name))
  {
    var sys' := Next(sys, e);
    NextKeeps(sys, e);
    assert CallersNeedActivation(sys);
    NextIsStep(sys, e);
    StepKeepsNames(sys.slave, OpOf(sys, e), i);
    StepDeactivates(sys.slave, OpOf(sys, e), i);
    assert Conserved(sys', i);
    forall id | id in sys'.sessions && Uses(sys'.sessions[id], sys.slave.subs[i].name)
      ensures sys'.slave.subs[i].active
    {
      UserCounts(sys'.sessions, id, sys.slave.subs[i].name);
    }
  }

  /** A caller that parked on an inactive substate, was woken and gets OK holds an
      active substate; it gets OK unless the component was shut down. */
  lemma ParkedPromise(sys: System, id: nat)
    requires SysInv(sys) && id in sys.sessions && sys.sessions[id].Parked?
    requires sys.sessions[id].reserved && sys.sessions[id].notified
    ensures var sys' := Next(sys, Wakes(id));
      if sys.slave.current == SHUTDOWN then id !in sys'.sessions
      else id in sys'.sessions && sys'.sessions[id] == Holding(sys.sessions[id].sub, true)
  {
    assert Good(sys.sessions[id], sys.slave);
  }

  ghost predicate HoldsActive(sys: System, id: nat, n: Name) {
    id in sys.sessions && sys.sessions[id] == Holding(n, true) && IsActive(sys.slave, n)
  }

  lemma HoldingStays(sys: System, e: Event, id: nat)
    requires id in sys.sessions && sys.sessions[id].Holding? && e != Releases(id)
    ensures id in Next(sys, e).sessions && Next(sys, e).sessions[id] == sys.sessions[id]
  {
  }

  lemma HoldsActiveStays(sys: System, e: Event, id: nat, n: Name)
    requires SysInv(sys) && HoldsActive(sys, id, n) && e != Releases(id)
    ensures SysInv(Next(sys, e)) && HoldsActive(Next(sys, e), id, n)
  {
    NextKeeps(sys, e);
    HoldingStays(sys, e, id);
    assert Good(Next(sys, e).sessions[id], Next(sys, e).slave);
  }

  /** Whoever holds an active substate finds it active in every later state until
      it releases, whatever else happens. */
  lemma {:induction false} HeldUntilReleased(sys: System, events: seq<Event>, id: nat, n: Name)
    requires SysInv(sys) && HoldsActive(sys, id, n)
    requires forall i :: 0 <= i < |events| ==> events[i] != Releases(id)
    ensures SysInv(After(sys, events)) && HoldsActive(After(sys, events), id, n)
  {
    if events != [] {
      HeldUntilReleased(sys, events[..|events| - 1], id, n);
      HoldsActiveStays(After(sys, events[..|events| - 1]), events[|events| - 1], id, n);
    }
  }

  ghost predicate HoldsUnsure(sys: System, id: nat) {
    id in sys.sessions && sys.sessions[id].Holding? && !sys.sessions[id].sure
  }

  lemma TriesAreSure(sys: System, k: nat, n: Name, id: nat)
    requires Inv(sys.slave) && !HoldsUnsure(sys, id)
    ensures !HoldsUnsure(Next(sys, Tries(k, n)), id)
  {
    var at := Find(sys.slave.subs, n);
    if at.Some? { BumpActive(sys.slave, at.value, 1); }
  }

  lemma AcquiresAreSure(sys: System, k: nat, n: Name, id: nat)
    requires Inv(sys.slave) && !HoldsUnsure(sys, id)
    ensures !HoldsUnsure(Next(sys, Acquires(k, n)), id)
  {
    var at := Find(sys.slave.subs, n);
    if at.Some? && BeginAcquireAt(sys.slave, at.value).1.Returned? {
      BumpActive(sys.slave, at.value, 1);
      BeginAcquireReturns(sys.slave, at.value);
    }
  }

  /** The only way to get OK from acquire or tryAcquire for a substate that is not
      active: the caller had waited for a pending change, without counting, and
      the substate is inactive again by the time it counts. */
  lemma UnsureHold(sys: System, e: Event, id: nat)
    requires SysInv(sys) && !HoldsUnsure(sys, id)
    ensures HoldsUnsure(Next(sys, e), id) <==> e == Wakes(id) && WakesUnsure(sys, id)
  {
    match e
    case Acquires(k, n) => AcquiresAreSure(sys, k, n, id);
    case Tries(k, n) => TriesAreSure(sys, k, n, id);
    case Wakes(k) => WokenUnsure(sys, k, id);
    case _ => OthersDoNotGrant(sys, e, id);
  }

  /** A caller that waited for a pending change was woken, and its substate is not
      active. */
  ghost predicate WakesUnsure(sys: System, id: nat) {
    && id in sys.sessions && sys.sessions[id] == Parked(sys.sessions[id].sub, false, true)
    && sys.slave.current != SHUTDOWN && !IsActive(sys.slave, sys.sessions[id].sub)
  }

  lemma OthersDoNotGrant(sys: System, e: Event, id: nat)
    requires !HoldsUnsure(sys, id) && !(e.Acquires? || e.Tries? || e.Wakes?)
    ensures !HoldsUnsure(Next(sys, e), id)
  {
  }

  lemma WokenUnsure(sys: System, k: nat, id: nat)
    requires SysInv(sys) && !HoldsUnsure(sys, id)
    ensures HoldsUnsure(Next(sys, Wakes(k)), id) <==> k == id && WakesUnsure(sys, id)
  {
    WokenHold(sys, k);
  }

  lemma WokenHold(sys: System, id: nat)
    requires SysInv(sys)
    ensures id in sys.sessions && sys.sessions[id].Parked? && sys.sessions[id].notified && sys.slave.current != SHUTDOWN ==>
      Next(sys, Wakes(id)).sessions
      == sys.sessions[id := Holding(sys.sessions[id].sub, sys.sessions[id].reserved || IsActive(sys.slave, sys.sessions[id].sub))]
  {
    if id in sys.sessions && sys.sessions[id].Parked? && sys.sessions[id].notified && sys.slave.current != SHUTDOWN {
      assert Good(sys.sessions[id], sys.slave);
      BumpActive(sys.slave, Find(sys.slave.subs, sys.sessions[id].sub).value, 1);
    }
  }

  /** A release is ignored, and its count kept for good, if and only if the
      substate is inactive; then the caller did not hold it for sure. */
  lemma IgnoredRelease(sys: System, id: nat)
    requires SysInv(sys) && id in sys.sessions && sys.sessions[id].Holding?
    ensures var n, sys' := sys.sessions[id].sub, Next(sys, Releases(id));
      && (sys'.slave.h.ignored == if IsActive(sys.slave, n) then sys.slave.h.ignored else sys.slave.h.ignored + [n])
      && (sys.sessions[id].sure ==> IsActive(sys.slave, n))
  {
    var i := ReleasesStep(sys, id);
    UpdateStateEffect(CountDown(sys.slave, i));
    assert sys.slave.subs[i].active ==> sys.slave.subs[i].cnt > 0 by { HeldCounts(sys, id); }
  }

  // ---------- setWaitState ----------

  /** setWaitState(Shutdown) that had to wait returns only in Shutdown; and no
      wait ends while the component is still in Init. */
  lemma WaitedShutdown(sys: System, w: nat)
    requires SysInv(sys) && w in sys.waiters && sys.waiters[w].Waiting?
    requires Next(sys, WaiterWakes(w)).waiters[w] == Finished(sys.waiters[w].asked)
    ensures sys.slave.current != INIT
    ensures sys.waiters[w].asked == SHUTDOWN ==> sys.slave.current == SHUTDOWN
  {
    assert GoodWaiter(sys.waiters[w], sys.slave.current);
  }

  lemma StepFromInit(s: State, op: Op)
    requires s.current == INIT && OnlyLifecycle(s)
    ensures Step(s, op).current == INIT || Lifecycle(Step(s, op).current)
  {
    if op.OpDispatch? {
      if s.dispatching && s.queue != [] { UpdateStateFrame(Dequeue(s)); }
    } else if op.OpRelease? {
      if ReleaseStatus(s, op.sub) == OK {
        CountDownFrame(s, Find(s.subs, op.sub).value);
        UpdateStateFrame(CountDown(s, Find(s.subs, op.sub).value));
      }
    } else {
      assert Step(s, op).current == s.current;
    }
  }

  /** The first main state after Init is Alive, FatalError or Shutdown. */
  lemma FirstStateAfterInit(sys: System, e: Event)
    requires SysInv(sys) && sys.slave.current == INIT
    ensures var m := Next(sys, e).slave.current; m == INIT || Lifecycle(m)
  {
    assert CallersNeedActivation(sys);
    NextIsStep(sys, e);
    StepFromInit(sys.slave, OpOf(sys, e));
  }
}
