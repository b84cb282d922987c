/** A run in which a master's query is superseded and never answered. */
module StateSuperseded {
  import opened Names
  import opened StateModel
  import opened StateReplies
  import opened StateSystem
  import opened StateRuns
  import opened StateScenario

  function EventAsks(events: seq<Event>, q: nat): nat {
    if events == [] then 0
    else
      EventAsks(events[..|events| - 1], q)
      + (if events[|events| - 1].MasterAsks? && events[|events| - 1].query == q then 1 else 0)
  }

  lemma {:induction false} EventAsksConcat(a: seq<Event>, b: seq<Event>, q: nat)
    ensures EventAsks(a + b, q) == EventAsks(a, q) + EventAsks(b, q)
    decreases |b|
  {
    if b == [] {
      assert a + b == a;
    } else {
      EventAsksConcat(a, b[..|b| - 1], q);
      assert (a + b)[..|a + b| - 1] == a + b[..|b| - 1];
    }
  }

  lemma NextAsks(sys: System, e: Event, q: nat)
    requires SysInv(sys)
    ensures TimesAsked(Next(sys, e).slave.h.asked, q)
      == TimesAsked(sys.slave.h.asked, q) + (if e.MasterAsks? && e.query == q then 1 else 0)
  {
    assert CallersNeedActivation(sys);
    NextIsStep(sys, e);
    AskedByStep(sys.slave, OpOf(sys, e), q);
  }

  /** The masters' queries are recorded, and nothing else is. */
  lemma {:induction false} EventsAreAsked(events: seq<Event>, q: nat)
    ensures TimesAsked(RunAll(events).slave.h.asked, q) == EventAsks(events, q)
  {
    if events != [] {
      EventsAreAsked(events[..|events| - 1], q);
      AlwaysSysInv(events[..|events| - 1]);
      NextAsks(RunAll(events[..|events| - 1]), events[|events| - 1], q);
    }
  }

  /** While the second query waits for the holder of ARM, a third one comes. */
  function SupersedingRun(): seq<Event> {
    Beginning() + [MasterAsks(3, WORK), Turn]
  }

  lemma ThirdIsQueued(s: State, p: Name)
    requires WaitsForArm(s, p, 1)
    ensures var s' := SetMainState(s, 3, WORK);
      s'.dispatching && s'.queue != [] && s'.desired == s.desired
  {
  }

  lemma Supersedes(sys: System, p: Name)
    requires WaitsForArm(sys.slave, p, 1) && sys.slave.desired.query == Some(2)
    ensures TimesSuperseded(Next(Next(sys, MasterAsks(3, WORK)), Turn).slave.h.superseded, 2) > 0
  {
    var s := SetMainState(sys.slave, 3, WORK);
    ThirdIsQueued(sys.slave, p);
    SupersedesExactly(s, OpDispatch, 2);
  }

  lemma SecondIsAskedOnce()
    ensures EventAsks(SupersedingRun(), 2) == 1
  {
    var a: seq<Event>, b: seq<Event> := [Defines(WORK, ARM), Activates], [SetWaits(0, ALIVE), Turn];
    var c, d := [MasterAsks(1, WORK), Turn], [Acquires(1, ARM)];
    var e, f := [MasterAsks(2, NEUTRAL), Turn], [MasterAsks(3, WORK), Turn];
    AsksOfTwo(Defines(WORK, ARM), Activates, 2);
    AsksOfTwo(SetWaits(0, ALIVE), Turn, 2);
    AsksOfTwo(MasterAsks(1, WORK), Turn, 2);
    AsksOfTwo(MasterAsks(2, NEUTRAL), Turn, 2);
    AsksOfTwo(MasterAsks(3, WORK), Turn, 2);
    assert d[..0] == [] && EventAsks(d, 2) == 0;
    assert [] + a == a;
    EventAsksConcat(a, b, 2);
    EventAsksConcat(a + b, c, 2);
    EventAsksConcat(a + b + c, d, 2);
    EventAsksConcat(a + b + c + d, e, 2);
    EventAsksConcat(a + b + c + d + e, f, 2);
  }

  lemma AsksOfTwo(a: Event, b: Event, q: nat)
    ensures EventAsks([a, b], q)
      == (if a.MasterAsks? && a.query == q then 1 else 0) + (if b.MasterAsks? && b.query == q then 1 else 0)
  {
    assert [a, b][..1] == [a] && [a][..0] == [];
    assert EventAsks([a], q) == if a.MasterAsks? && a.query == q then 1 else 0;
  }

  /** The second query, made once, is superseded in this run; so it is never answered
      in any continuation that does not repeat it. */
  lemma SecondIsSuperseded(more: seq<Op>)
    ensures Asks(OpsOf(SupersedingRun()), 2) == 1
    ensures TimesSuperseded(Run(Boot(), OpsOf(SupersedingRun())).h.superseded, 2) > 0
    ensures Asks(OpsOf(SupersedingRun()) + more, 2) == 1 ==>
      TimesAnswered(Run(Boot(), OpsOf(SupersedingRun()) + more).h.answers, 2) == 0
  {
    var ops := OpsOf(SupersedingRun());
    BeginningBlocks();
    ExtendTwice(Beginning(), MasterAsks(3, WORK), Turn);
    Supersedes(RunAll(Beginning()), ALIVE);
    RunsAreRuns(SupersedingRun());
    EventsAreAsked(SupersedingRun(), 2);
    AsksAreRecorded(ops, 2);
    SecondIsAskedOnce();
    if Asks(ops + more, 2) == 1 {
      SupersededIsUnanswered(ops, more, 2);
    }
  }
}
