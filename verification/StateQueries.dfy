/** What monitors and masters are told about the state. */
module StateQueries {
  import opened Names
  import opened StateModel
  import opened StateConfig
  import opened StateInvariant

  // ---------- what monitors are told ----------

  /** The main state being entered, or the current one. */
  function Monitored(s: State): Name { if s.pending then s.desired.state else s.current }

  /** In every run the monitored main state is a known one, differs from the current
      one exactly while a change is pending, and is where the release that completes
      the change leads. */
  lemma MonitoredState(ops: seq<Op>, n: Name)
    ensures var s := Run(Boot(), ops);
      && Acceptable(s.subs, Monitored(s)) && (Monitored(s) != s.current <==> s.pending)
      && (s.pending && ReleaseStatus(s, n) == OK && !Release(s, n).pending ==>
            Release(s, n).current == Target(Monitored(s)))
  {
    AlwaysInv(ops);
    var s := Run(Boot(), ops);
    if s.pending && ReleaseStatus(s, n) == OK {
      LastReleaseCompletes(s, n);
    }
  }

  /** A master's query: a command with the name it carries. */
  datatype Query = SetState(name: Name) | GetCurrentState | GetMainStates | GetSubStates(name: Name) | OtherCommand

  datatype StateResponse = StateResponse(status: Status, states: seq<Name>)

  /** The response to a query that is answered at once. */
  function Response(s: State, q: Query): Option<StateResponse> {
    match q
    case SetState(_) => None
    case OtherCommand => None
    case GetCurrentState =>
      Some(if s.running then StateResponse(OK, [s.current]) else StateResponse(NotActivated, [EMPTY]))
    case GetMainStates =>
      Some(if s.running then StateResponse(MainStates(s.subs).0, MainStates(s.subs).1)
           else StateResponse(NotActivated, []))
    case GetSubStates(m) =>
      Some(if !s.running then StateResponse(NotActivated, [])
           else StateResponse(if SubStates(s.subs, m) == [] then UnknownState else OK, SubStates(s.subs, m)))
  }

  lemma ListedHere(subs: seq<SubState>, i: nat, m: Name)
    requires Config(subs) && i < |subs|
    ensures subs[i].name in SubStates(subs, m) <==> m in subs[i].mainstates
  {
    SubStatesExact(subs, m, subs[i].name);
    if m in subs[i].mainstates {
      assert At(subs[i], subs[i].name, m);
    }
  }

  lemma HasSubStates(subs: seq<SubState>, m: Name)
    requires Config(subs)
    ensures SubStates(subs, m) != [] <==> Listed(subs, m)
  {
    if Listed(subs, m) {
      var i :| 0 <= i < |subs| && m in subs[i].mainstates;
      ListedHere(subs, i, m);
    }
    if SubStates(subs, m) != [] {
      SubStatesExact(subs, m, SubStates(subs, m)[0]);
    }
  }

  /** The answers fit each other: the substates of the main state that is told as the
      current one are the active ones, but for a bare Neutral; Alive has none; and the
      current main state is told as a main state unless it is one of the lifecycle. */
  ghost predicate Agree(s: State)
    requires s.running
  {
    var m, mains := s.current, Response(s, GetMainStates).value.states;
    var states := Response(s, GetSubStates(m)).value.states;
    && Response(s, GetCurrentState) == Some(StateResponse(OK, [m]))
    && (TellsActive(s.subs, states) || (m == NEUTRAL && AllInactive(s.subs)))
    && (states == [] <==> m == ALIVE)
    && (m in mains <==> m != INIT && !Lifecycle(m))
  }

  ghost predicate TellsActive(subs: seq<SubState>, states: seq<Name>) {
    forall i :: 0 <= i < |subs| ==> (subs[i].name in states <==> subs[i].active)
  }

  lemma ActiveAreTold(subs: seq<SubState>, m: Name)
    requires Config(subs) && ActiveIn(subs, m)
    ensures TellsActive(subs, SubStates(subs, m))
  {
    forall i | 0 <= i < |subs| ensures subs[i].name in SubStates(subs, m) <==> subs[i].active {
      ListedHere(subs, i, m);
    }
  }

  lemma KnownIsTold(subs: seq<SubState>, m: Name)
    requires Config(subs) && (m == ALIVE || Listed(subs, m))
    ensures SubStates(subs, m) == [] <==> m == ALIVE
    ensures m in MainStates(subs).1 <==> m != INIT && !Lifecycle(m)
  {
    ReportedStates(subs, m);
    ReservedListed(subs);
    HasSubStates(subs, m);
  }

  lemma StateAgrees(s: State)
    requires Inv(s) && s.running
    ensures Agree(s)
  {
    if ActiveIn(s.subs, s.current) { ActiveAreTold(s.subs, s.current); }
    KnownIsTold(s.subs, s.current);
  }

  lemma ResponsesAgree(ops: seq<Op>)
    requires Run(Boot(), ops).running
    ensures Agree(Run(Boot(), ops))
  {
    AlwaysInv(ops);
    StateAgrees(Run(Boot(), ops));
  }

  ghost predicate TellsMains(subs: seq<SubState>, response: StateResponse, m: Name) {
    response.status == OK && (m in response.states <==> m == NEUTRAL || Lists(subs, NONNEUTRAL_LOWER, m))
  }

  ghost predicate TellsSubs(subs: seq<SubState>, response: StateResponse, m: Name, n: Name) {
    && (n in response.states <==> Lists(subs, n, m))
    && response.status == if exists i :: 0 <= i < |subs| && m in subs[i].mainstates then OK else UnknownState
  }

  lemma NonneutralLists(subs: seq<SubState>, m: Name)
    requires Config(subs)
    ensures Lists(subs, NONNEUTRAL_LOWER, m) <==> m in subs[4].mainstates
  {
    if m in subs[4].mainstates { assert At(subs[4], NONNEUTRAL_LOWER, m); }
  }

  /** Every answer, for every name that is asked about: the current main state; the
      main states, which are Neutral and those that "nonneutral" lists; and the
      substates that list the main state of the query. Before activation nothing is
      told. */
  lemma QueriesExact(s: State, m: Name, n: Name)
    requires Config(s.subs)
    ensures Response(s, SetState(m)) == None && Response(s, OtherCommand) == None
    ensures !s.running ==>
      && Response(s, GetCurrentState) == Some(StateResponse(NotActivated, [EMPTY]))
      && Response(s, GetMainStates) == Response(s, GetSubStates(m)) == Some(StateResponse(NotActivated, []))
    ensures s.running ==>
      && Response(s, GetCurrentState) == Some(StateResponse(OK, [s.current]))
      && Response(s, GetMainStates).Some? && Response(s, GetSubStates(m)).Some?
      && TellsMains(s.subs, Response(s, GetMainStates).value, m)
      && TellsSubs(s.subs, Response(s, GetSubStates(m)).value, m, n)
  {
    SubStatesExact(s.subs, m, n);
    HasSubStates(s.subs, m);
    FindAt(s.subs, 4);
    NonneutralLists(s.subs, m);
  }
}
