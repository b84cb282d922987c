/** A small component in concrete runs: one main state WORK with one substate ARM. */
module StateScenario {
  import opened Names
  import opened StateModel
  import opened StateConfig
  import opened StateInvariant
  import opened StateSystem

  /** The user's main state and its substate. */
  const WORK: Name := 17
  const ARM: Name := 18

  /** The component is configured, activated and made Alive. */
  function Startup(): seq<Event> {
    [] + [Defines(WORK, ARM), Activates] + [SetWaits(0, ALIVE), Turn]
  }

  /** Then a caller holds ARM, and a master's change to Neutral waits for it. */
  function Beginning(): seq<Event> {
    Startup()
    + [MasterAsks(1, WORK), Turn]
    + [Acquires(1, ARM)]
    + [MasterAsks(2, NEUTRAL), Turn]
  }

  /** A substate after a change from `p` to `m`. */
  function Entry(n: Name, mains: seq<Name>, cnt: int, p: Name, m: Name): SubState {
    SubState(n, mains, cnt, ActionFor(SubState(n, mains, cnt, Keep, false), p, m), m in mains)
  }

  /** The substates after a change from `p` to `m`, with `cnt` counts of ARM. */
  function SubsAt(p: Name, m: Name, cnt: int): (r: seq<SubState>)
    ensures |r| == 6
  {
    [ Entry(INIT_LOWER, [INIT], 0, p, m), Entry(NEUTRAL_LOWER, [NEUTRAL], 0, p, m),
      Entry(FATAL_ERROR_CAMEL, [FATAL_ERROR], 0, p, m), Entry(SHUTDOWN_LOWER, [SHUTDOWN], 0, p, m),
      Entry(NONNEUTRAL_LOWER, [WORK], 0, p, m), Entry(ARM, [WORK], cnt, p, m) ]
  }

  lemma EntrySwitched(n: Name, mains: seq<Name>, cnt: int, p: Name, m: Name, d: Name)
    ensures Switch(Mark(Entry(n, mains, cnt, p, m), m, d)) == Entry(n, mains, cnt, m, d)
  {
  }

  lemma SwitchedTo(p: Name, m: Name, d: Name, cnt: int)
    ensures Switched(Marked(SubsAt(p, m, cnt), m, d)) == SubsAt(m, d, cnt)
  {
    EntrySwitched(INIT_LOWER, [INIT], 0, p, m, d);
    EntrySwitched(NEUTRAL_LOWER, [NEUTRAL], 0, p, m, d);
    EntrySwitched(FATAL_ERROR_CAMEL, [FATAL_ERROR], 0, p, m, d);
    EntrySwitched(SHUTDOWN_LOWER, [SHUTDOWN], 0, p, m, d);
    EntrySwitched(NONNEUTRAL_LOWER, [WORK], 0, p, m, d);
    EntrySwitched(ARM, [WORK], cnt, p, m, d);
  }

  /** Only a count of ARM is ever in the way. */
  lemma LockedAt(p: Name, m: Name, d: Name, cnt: int)
    ensures Locked(Marked(SubsAt(p, m, cnt), m, d)) <==> m == WORK && d != WORK && cnt != 0
  {
    var marked := Marked(SubsAt(p, m, cnt), m, d);
    assert Blocks(marked[5]) <==> m == WORK && d != WORK && cnt != 0;
  }

  lemma Known(p: Name, m: Name, cnt: int, d: Name)
    requires d == WORK || d == NEUTRAL || d == ALIVE || d == FATAL_ERROR
    ensures Acceptable(SubsAt(p, m, cnt), d)
  {
    assert WORK in SubsAt(p, m, cnt)[5].mainstates;
    assert NEUTRAL in SubsAt(p, m, cnt)[1].mainstates;
    assert FATAL_ERROR in SubsAt(p, m, cnt)[2].mainstates;
  }

  lemma ArmAt(p: Name, m: Name, cnt: int)
    ensures Find(SubsAt(p, m, cnt), ARM) == Some(5)
    ensures ARM in Notices(SubsAt(p, m, cnt), m) <==> m == WORK || m == SHUTDOWN
  {
    assert UniqueNames(SubsAt(p, m, cnt));
    FindAt(SubsAt(p, m, cnt), 5);
    NoticesExact(SubsAt(p, m, cnt), m, 5);
  }

  /** The slave is in `m`, which it entered from `p`, with nothing pending. */
  predicate RestsWith(s: State, p: Name, m: Name, cnt: int, queue: seq<Request>) {
    && s.running && s.dispatching && s.queue == queue && !s.pending && s.current == m
    && s.subs == SubsAt(p, m, cnt)
  }

  predicate RestsIn(s: State, p: Name, m: Name, cnt: int) { RestsWith(s, p, m, cnt, []) }

  /** A request at the head of the queue that nothing stands in the way of is performed. */
  lemma PerformsHead(s: State, r: Request, rest: seq<Request>)
    requires s.dispatching && s.queue == [r] + rest && r.state != SHUTDOWN && !IsDeactivation(r.state)
    requires Acceptable(s.subs, r.state) && r.state != s.current && !Locked(Marked(s.subs, s.current, r.state))
    ensures var s', subs := Dispatch(s), Switched(Marked(s.subs, s.current, r.state));
      && s'.running == s.running && s'.dispatching && s'.queue == rest && !s'.pending
      && s'.current == r.state && s'.subs == subs
      && Since(s.h.woken, s'.h.woken) == Notices(subs, r.state)
      && Since(s.h.completed, s'.h.completed) == AsSeq(r.waiter)
  {
    var d := Dequeue(s);
    var subs := Switched(Marked(s.subs, s.current, r.state));
    assert d.queue == rest && d.desired == r;
    assert UpdateState(d) == Settle(Perform(d.(subs := Marked(d.subs, d.current, r.state))), OK);
    assert (s.h.woken + Notices(subs, r.state))[|s.h.woken|..] == Notices(subs, r.state);
    assert (s.h.completed + AsSeq(r.waiter))[|s.h.completed|..] == AsSeq(r.waiter);
  }

  lemma Performs(s: State, p: Name, m: Name, cnt: int, r: Request, rest: seq<Request>)
    requires RestsWith(s, p, m, cnt, [r] + rest) && r.state != m && !(m == WORK && cnt != 0)
    requires r.state == WORK || r.state == NEUTRAL || r.state == ALIVE || r.state == FATAL_ERROR
    ensures var s' := Dispatch(s);
      && RestsWith(s', m, r.state, cnt, rest)
      && (ARM in Since(s.h.woken, s'.h.woken) <==> r.state == WORK)
      && Since(s.h.completed, s'.h.completed) == AsSeq(r.waiter)
  {
    Known(p, m, cnt, r.state);
    LockedAt(p, m, r.state, cnt);
    SwitchedTo(p, m, r.state, cnt);
    ArmAt(m, r.state, cnt);
    PerformsHead(s, r, rest);
  }

  ghost predicate OnlyArm(sessions: map<nat, Session>) {
    forall id :: id in sessions ==> sessions[id].sub == ARM
  }

  lemma QueuesTail(s: State, p: Name, m: Name, cnt: int, q: nat, d: Name)
    requires RestsIn(s, p, m, cnt) && (m == ALIVE || m == NEUTRAL || m == WORK) && (d == WORK || d == NEUTRAL)
    ensures RestsWith(SetMainState(s, q, d), p, m, cnt, [Request(d, Some(q), None)])
    ensures SetMainState(s, q, d).h.woken == s.h.woken
  {
  }

  /** A master asks for another main state, and the update thread runs. */
  lemma Asked(sys: System, p: Name, m: Name, cnt: int, q: nat, d: Name)
    requires RestsIn(sys.slave, p, m, cnt) && OnlyArm(sys.sessions) && d != m && !(m == WORK && cnt != 0)
    requires (m == ALIVE || m == NEUTRAL || m == WORK) && (d == WORK || d == NEUTRAL)
    ensures var sys' := Next(Next(sys, MasterAsks(q, d)), Turn);
      RestsIn(sys'.slave, m, d, cnt)
      && sys'.sessions == if d == WORK then Tell(sys.sessions, [ARM]) else sys.sessions
  {
    var s, r := sys.slave, Request(d, Some(q), None);
    QueuesTail(s, p, m, cnt, q, d);
    assert [r] + [] == [r];
    Performs(SetMainState(s, q, d), p, m, cnt, r, []);
    ToldArm(sys.sessions, Since(s.h.woken, Dispatch(SetMainState(s, q, d)).h.woken));
  }

  lemma ToldArm(sessions: map<nat, Session>, woken: seq<Name>)
    requires OnlyArm(sessions)
    ensures Tell(sessions, woken) == if ARM in woken then Tell(sessions, [ARM]) else sessions
  {
  }

  lemma {:induction false} AfterConcat(sys: System, a: seq<Event>, b: seq<Event>)
    ensures After(sys, a + b) == After(After(sys, a), b)
    decreases |b|
  {
    if b == [] {
      assert a + b == a;
    } else {
      AfterConcat(sys, a, b[..|b| - 1]);
      assert (a + b)[..|a + b| - 1] == a + b[..|b| - 1];
    }
  }

  lemma AfterOne(sys: System, e: Event)
    ensures After(sys, [e]) == Next(sys, e)
  {
    assert [e][..0] == [];
  }

  lemma AfterTwo(sys: System, a: Event, b: Event)
    ensures After(sys, [a, b]) == Next(Next(sys, a), b)
  {
    assert [a, b][..1] == [a];
    AfterOne(sys, a);
  }

  lemma Configured()
    ensures Defined(InitialSubStates(), WORK, ARM) == SubsAt(INIT, INIT, 0)
  {
    var subs := InitialSubStates();
    var a := With(subs, 4, WORK);
    assert a[4] == SubState(NONNEUTRAL_LOWER, [WORK], 0, Keep, false);
    assert Find(a, ARM) == None;
    var r := a + [SubState(ARM, [WORK], 0, Keep, false)];
    assert r[0] == subs[0] && r[1] == subs[1] && r[2] == subs[2] && r[3] == subs[3];
    assert r == SubsAt(INIT, INIT, 0);
  }

  lemma Activated()
    ensures var b := Next(Next(Start(), Defines(WORK, ARM)), Activates);
      RestsIn(b.slave, INIT, INIT, 0) && b.sessions == map[] && b.waiters == map[]
  {
    BootKeeps();
    DefineStatesOutcome(Boot(), WORK, ARM);
    Configured();
  }

  lemma MadeAlive(b: System)
    requires RestsIn(b.slave, INIT, INIT, 0) && b.sessions == map[] && b.waiters == map[]
    ensures var sys := Next(Next(b, SetWaits(0, ALIVE)), Turn);
      RestsIn(sys.slave, INIT, ALIVE, 0) && sys.sessions == map[] && sys.waiters == map[0 := Waiting(ALIVE, ALIVE, false, true)]
  {
    var r, c := Request(ALIVE, None, Some(0)), Next(b, SetWaits(0, ALIVE));
    assert [r] + [] == [r];
    assert RestsWith(c.slave, INIT, INIT, 0, [r]);
    Performs(c.slave, INIT, INIT, 0, r, []);
  }

  /** A change to Neutral waits for the holder of ARM. */
  predicate WaitsForArm(s: State, p: Name, cnt: int) {
    && s.running && s.dispatching && s.queue == [] && s.pending && s.current == WORK && s.desired.state == NEUTRAL
    && s.subs == Marked(SubsAt(p, WORK, cnt), WORK, NEUTRAL)
  }

  lemma Blocked(sys: System, p: Name, q: nat)
    requires RestsIn(sys.slave, p, WORK, 1) && OnlyArm(sys.sessions)
    ensures var sys' := Next(Next(sys, MasterAsks(q, NEUTRAL)), Turn);
      WaitsForArm(sys'.slave, p, 1) && sys'.slave.desired.query == Some(q) && sys'.sessions == sys.sessions
  {
    var s := sys.slave;
    QueuesTail(s, p, WORK, 1, q, NEUTRAL);
    var d := Dequeue(SetMainState(s, q, NEUTRAL));
    assert d.queue == [] && d.desired == Request(NEUTRAL, Some(q), None);
    Known(p, WORK, 1, NEUTRAL);
    LockedAt(p, WORK, NEUTRAL, 1);
    assert UpdateState(d) == d.(subs := Marked(d.subs, WORK, NEUTRAL));
    ToldArm(sys.sessions, []);
    assert Since(s.h.woken, Dispatch(SetMainState(s, q, NEUTRAL)).h.woken) == [];
  }

  lemma Granted(sys: System, p: Name, id: nat)
    requires RestsIn(sys.slave, p, WORK, 0) && id !in sys.sessions
    ensures var sys' := Next(sys, Acquires(id, ARM));
      RestsIn(sys'.slave, p, WORK, 1) && sys'.sessions == sys.sessions[id := Holding(ARM, true)]
  {
    ArmAt(p, WORK, 0);
    ArmAt(p, WORK, 1);
  }

  lemma ExtendTwice(events: seq<Event>, a: Event, b: Event)
    ensures RunAll(events + [a, b]) == Next(Next(RunAll(events), a), b)
  {
    AfterConcat(Start(), events, [a, b]);
    AfterTwo(RunAll(events), a, b);
  }

  lemma AskedRun(r: seq<Event>, p: Name, m: Name, cnt: int, q: nat, d: Name)
    requires RestsIn(RunAll(r).slave, p, m, cnt) && OnlyArm(RunAll(r).sessions) && d != m && !(m == WORK && cnt != 0)
    requires (m == ALIVE || m == NEUTRAL || m == WORK) && (d == WORK || d == NEUTRAL)
    ensures var sys := RunAll(r + [MasterAsks(q, d), Turn]);
      RestsIn(sys.slave, m, d, cnt)
      && sys.sessions == if d == WORK then Tell(RunAll(r).sessions, [ARM]) else RunAll(r).sessions
  {
    ExtendTwice(r, MasterAsks(q, d), Turn);
    Asked(RunAll(r), p, m, cnt, q, d);
  }

  /** After the start, Alive is stored as the current main state. */
  lemma StartupIsAlive()
    ensures var sys := RunAll(Startup());
      RestsIn(sys.slave, INIT, ALIVE, 0) && sys.slave.current == ALIVE
      && sys.sessions == map[] && sys.waiters == map[0 := Waiting(ALIVE, ALIVE, false, true)]
  {
    var r0: seq<Event> := [];
    ExtendTwice(r0, Defines(WORK, ARM), Activates);
    Activated();
    var r2 := r0 + [Defines(WORK, ARM), Activates];
    ExtendTwice(r2, SetWaits(0, ALIVE), Turn);
    MadeAlive(RunAll(r2));
  }

  lemma BeginningBlocks()
    ensures var sys := RunAll(Beginning());
      WaitsForArm(sys.slave, ALIVE, 1) && sys.slave.desired.query == Some(2) && sys.sessions == map[1 := Holding(ARM, true)]
  {
    StartupIsAlive();
    var r4 := Startup();
    AskedRun(r4, INIT, ALIVE, 0, 1, WORK);
    var r6 := r4 + [MasterAsks(1, WORK), Turn];
    AfterConcat(Start(), r6, [Acquires(1, ARM)]);
    AfterOne(RunAll(r6), Acquires(1, ARM));
    Granted(RunAll(r6), ALIVE, 1);
    var r7 := r6 + [Acquires(1, ARM)];
    ExtendTwice(r7, MasterAsks(2, NEUTRAL), Turn);
    Blocked(RunAll(r7), ALIVE, 2);
  }
}
