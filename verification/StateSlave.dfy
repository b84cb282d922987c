/** The state slave as a class whose methods are the mutex-protected sections of
    the source. Each method is proved to do to the fields what the function of the
    same section in StateModel does to the value of the fields. */
module Slave {
  import opened Names
  import opened StateModel
  import opened StateConfig
  import opened StateQueries
  import M = StateModel

  /** A substate when the first loop of a change is done, ... */
  function Left(sub: SubState): SubState {
    if sub.action == Deactivate && sub.name != NONNEUTRAL_LOWER then Switch(sub) else sub
  }

  /** ... when "nonneutral" has been quit as well, ... */
  function LeftAll(sub: SubState): SubState {
    if sub.action == Deactivate then Switch(sub) else sub
  }

  /** ... and when "nonneutral" has been entered. */
  function LeftOrFirst(sub: SubState): SubState {
    if sub.action == Deactivate || sub.name == NONNEUTRAL_LOWER then Switch(sub) else sub
  }

  lemma AffectedStep(subs: seq<SubState>, i: nat, a: M.Action, special: bool)
    requires i < |subs|
    ensures Affected(subs[..i + 1], a, special)
      == Affected(subs[..i], a, special) + (if IsAffected(subs[i], a, special) then [subs[i].name] else [])
  {
    assert subs[..i + 1][..i] == subs[..i];
  }

  lemma NoticesStep(subs: seq<SubState>, i: nat, target: Name)
    requires i < |subs|
    ensures Notices(subs[..i + 1], target)
      == Notices(subs[..i], target) + (if subs[i].active || target == SHUTDOWN then [subs[i].name] else [])
  {
    assert subs[..i + 1][..i] == subs[..i];
  }

  lemma QuitsStep(names: seq<Name>, n: Name)
    ensures Quits(names + [n]) == Quits(names) + [Quit(n)] && Enters(names + [n]) == Enters(names) + [Enter(n)]
  {
  }

  /** What the last loop of a change does to a substate. */
  function Entering(sub: SubState): SubState {
    if IsAffected(sub, Activate, false) then Switch(sub) else sub
  }

  /** `at` is where "nonneutral" is, if it has the action. */
  ghost predicate IsSpecial(subs: seq<SubState>, a: M.Action, at: Option<nat>) {
    && (at.Some? ==> at.value < |subs| && IsAffected(subs[at.value], a, true))
    && (forall j :: 0 <= j < |subs| && IsAffected(subs[j], a, true) ==> at == Some(j))
    && Affected(subs, a, true) == (if at.Some? then [NONNEUTRAL_LOWER] else [])
  }

  function LastSpecial(subs: seq<SubState>, a: M.Action): Option<nat> {
    if subs == [] then None
    else if IsAffected(subs[|subs| - 1], a, true) then Some(|subs| - 1)
    else LastSpecial(subs[..|subs| - 1], a)
  }

  lemma SpecialStep(subs: seq<SubState>, i: nat, a: M.Action)
    requires i < |subs|
    ensures LastSpecial(subs[..i + 1], a) == if IsAffected(subs[i], a, true) then Some(i) else LastSpecial(subs[..i], a)
  {
    assert subs[..i + 1][..i] == subs[..i];
  }

  lemma {:induction false} LastSpecialIsSpecial(subs: seq<SubState>, a: M.Action)
    requires UniqueNames(subs)
    ensures IsSpecial(subs, a, LastSpecial(subs, a))
  {
    if subs != [] {
      LastSpecialIsSpecial(subs[..|subs| - 1], a);
    }
  }

  lemma CallsOf(calls: seq<Call>, subs: seq<SubState>)
    ensures calls + HandlerCalls(subs)
      == calls + Quits(Affected(subs, Deactivate, false)) + Quits(Affected(subs, Deactivate, true))
         + Enters(Affected(subs, Activate, true)) + Enters(Affected(subs, Activate, false))
  {
    QuitsConcat(Affected(subs, Deactivate, false), Affected(subs, Deactivate, true));
    QuitsConcat(Affected(subs, Activate, true), Affected(subs, Activate, false));
  }

  lemma QuitsConcat(a: seq<Name>, b: seq<Name>)
    ensures Quits(a + b) == Quits(a) + Quits(b) && Enters(a + b) == Enters(a) + Enters(b)
  {
  }

  lemma AffectedSame(a: seq<SubState>, b: seq<SubState>)
    requires |a| == |b| && forall j :: 0 <= j < |a| ==> a[j].name == b[j].name && a[j].action == b[j].action
    ensures Affected(a, Activate, false) == Affected(b, Activate, false)
  {
    if a != [] { AffectedSame(a[..|a| - 1], b[..|b| - 1]); }
  }

  /** The loops of a change together. */
  lemma SwitchedInTurns(subs: seq<SubState>, after: seq<SubState>)
    requires |after| == |subs| && forall j :: 0 <= j < |subs| ==> after[j] == Entering(LeftOrFirst(subs[j]))
    ensures after == Switched(subs)
  {
  }

  class StateSlave {
    var running: bool
    var updateThreadRunning: bool
    var stateQueue: seq<Request>
    var changePending: bool
    var desiredState: Request
    var currentState: Name
    var initialState: Name
    var stateList: seq<SubState>
    var history: History

    ghost function Model(): State
      reads this
    {
      State(running, updateThreadRunning, stateQueue, changePending, desiredState, currentState, initialState,
            stateList, history)
    }

    ghost predicate Valid()
      reads this
    {
      UniqueNames(stateList)
    }

    constructor ()
      ensures Valid() && Model() == Boot()
    {
      running, updateThreadRunning, changePending := false, true, false;
      stateQueue, stateList := [], InitialSubStates();
      desiredState := Request(INIT, None, None);
      currentState, initialState := INIT, NEUTRAL;
      history := History([], [], [], [], [], [], [], [], []);
    }

    // ---------- changing the main state ----------

    method AnswerPending(status: Status)
      modifies this
      ensures Model() == Settle(old(Model()), status)
    {
      changePending := false;
      if desiredState.query.Some? {
        history := history.(answers := history.answers + [Reply(desiredState.query.value, status)]);
        desiredState := desiredState.(query := None);
      }
    }

    method Contains(names: seq<Name>, m: Name) returns (found: bool)
      ensures found <==> m in names
    {
      found := false;
      for i := 0 to |names|
        invariant found <==> m in names[..i]
      {
        if names[i] == m { found := true; }
      }
    }

    /** Whether any substate lists the main state. */
    method IsListed(m: Name) returns (valid: bool)
      ensures valid <==> Listed(stateList, m)
    {
      valid := false;
      for i := 0 to |stateList|
        invariant valid <==> exists j :: 0 <= j < i && m in stateList[j].mainstates
      {
        var found := Contains(stateList[i].mainstates, m);
        if found { valid := true; }
      }
    }

    /** Decide for every substate whether the pending change leaves or enters it. */
    method MarkActions()
      modifies this
      ensures Model() == old(Model()).(subs := Marked(old(stateList), currentState, desiredState.state))
    {
      ghost var subs := stateList;
      for i := 0 to |stateList|
        modifies `stateList
        invariant |stateList| == |subs|
        invariant forall j :: 0 <= j < i ==> stateList[j] == Mark(subs[j], currentState, desiredState.state)
        invariant forall j :: i <= j < |subs| ==> stateList[j] == subs[j]
      {
        var action := Keep;
        var desired := Contains(stateList[i].mainstates, desiredState.state);
        var current := Contains(stateList[i].mainstates, currentState);
        if current && !desired { action := Deactivate; }
        if !current && desired { action := Activate; }
        stateList := stateList[i := stateList[i].(action := action)];
      }
    }

    method IsLocked() returns (locked: bool)
      ensures locked <==> Locked(stateList)
    {
      locked := false;
      for i := 0 to |stateList|
        invariant locked <==> exists j :: 0 <= j < i && Blocks(stateList[j])
      {
        if stateList[i].action == Deactivate && stateList[i].cnt != 0 { locked := true; }
      }
    }

    method CallQuit(i: nat)
      requires i < |stateList|
      modifies `stateList, `history
      ensures stateList == old(stateList)[i := old(stateList)[i].(active := false)]
      ensures history == old(history).(calls := old(history).calls + [Quit(old(stateList)[i].name)])
    {
      history := history.(calls := history.calls + [Quit(stateList[i].name)]);
      stateList := stateList[i := stateList[i].(active := false)];
    }

    method CallEnter(i: nat)
      requires i < |stateList|
      modifies `stateList, `history
      ensures stateList == old(stateList)[i := old(stateList)[i].(active := true)]
      ensures history == old(history).(calls := old(history).calls + [Enter(old(stateList)[i].name)])
    {
      history := history.(calls := history.calls + [Enter(stateList[i].name)]);
      stateList := stateList[i := stateList[i].(active := true)];
    }

    /** The body of the first loop of a change. */
    method QuitOther(i: nat, quitLast: Option<nat>, enterFirst: Option<nat>)
      returns (quitLast': Option<nat>, enterFirst': Option<nat>)
      requires i < |stateList|
      modifies `stateList, `history
      ensures stateList == old(stateList)[i := Left(old(stateList)[i])]
      ensures history == if IsAffected(old(stateList)[i], Deactivate, false)
        then old(history).(calls := old(history).calls + [Quit(old(stateList)[i].name)]) else old(history)
      ensures quitLast' == if IsAffected(old(stateList)[i], Deactivate, true) then Some(i) else quitLast
      ensures enterFirst' == if IsAffected(old(stateList)[i], Activate, true) then Some(i) else enterFirst
    {
      quitLast', enterFirst' := quitLast, enterFirst;
      if stateList[i].action == Deactivate {
        if stateList[i].name == NONNEUTRAL_LOWER {
          quitLast' := Some(i);
        } else {
          CallQuit(i);
        }
      }
      if stateList[i].action == Activate && stateList[i].name == NONNEUTRAL_LOWER { enterFirst' := Some(i); }
    }

    /** Quit the substates to be left, all but "nonneutral", which is only found. */
    method QuitOthers() returns (quitLast: Option<nat>, enterFirst: Option<nat>)
      requires Valid()
      modifies `stateList, `history
      ensures history == old(history).(calls := old(history).calls + Quits(Affected(old(stateList), Deactivate, false)))
      ensures |stateList| == |old(stateList)|
      ensures forall j :: 0 <= j < |stateList| ==> stateList[j] == Left(old(stateList)[j])
      ensures IsSpecial(old(stateList), Deactivate, quitLast) && IsSpecial(old(stateList), Activate, enterFirst)
    {
      ghost var subs := stateList;
      quitLast, enterFirst := None, None;
      for i := 0 to |stateList|
        invariant history == old(history).(calls := old(history).calls + Quits(Affected(subs[..i], Deactivate, false)))
        invariant |stateList| == |subs|
        invariant forall j :: 0 <= j < i ==> stateList[j] == Left(subs[j])
        invariant forall j :: i <= j < |subs| ==> stateList[j] == subs[j]
        invariant quitLast == LastSpecial(subs[..i], Deactivate) && enterFirst == LastSpecial(subs[..i], Activate)
      {
        AffectedStep(subs, i, Deactivate, false);
        SpecialStep(subs, i, Deactivate);
        SpecialStep(subs, i, Activate);
        QuitsStep(Affected(subs[..i], Deactivate, false), subs[i].name);
        quitLast, enterFirst := QuitOther(i, quitLast, enterFirst);
      }
      assert subs[..|subs|] == subs;
      LastSpecialIsSpecial(subs, Deactivate);
      LastSpecialIsSpecial(subs, Activate);
    }

    /** Enter the substates to be entered, all but "nonneutral". */
    method EnterOthers()
      modifies `stateList, `history
      ensures history == old(history).(calls := old(history).calls + Enters(Affected(old(stateList), Activate, false)))
      ensures |stateList| == |old(stateList)|
      ensures forall j :: 0 <= j < |stateList| ==> stateList[j] == Entering(old(stateList)[j])
    {
      ghost var subs := stateList;
      for i := 0 to |stateList|
        invariant history == old(history).(calls := old(history).calls + Enters(Affected(subs[..i], Activate, false)))
        invariant |stateList| == |subs|
        invariant forall j :: 0 <= j < i ==> stateList[j] == Entering(subs[j])
        invariant forall j :: i <= j < |subs| ==> stateList[j] == subs[j]
      {
        AffectedStep(subs, i, Activate, false);
        if stateList[i].action == Activate && stateList[i].name != NONNEUTRAL_LOWER {
          QuitsStep(Affected(subs[..i], Activate, false), subs[i].name);
          CallEnter(i);
        }
      }
      assert subs[..|subs|] == subs;
    }

    /** Wake the callers waiting for an active substate; at Shutdown, all callers. */
    method NotifyActive()
      modifies `history
      ensures history == old(history).(woken := old(history).woken + Notices(stateList, desiredState.state))
    {
      for i := 0 to |stateList|
        invariant history == old(history).(woken := old(history).woken + Notices(stateList[..i], desiredState.state))
      {
        NoticesStep(stateList, i, desiredState.state);
        if stateList[i].active || desiredState.state == SHUTDOWN {
          history := history.(woken := history.woken + [stateList[i].name]);
        }
      }
      assert stateList[..|stateList|] == stateList;
    }

    /** Quit or enter "nonneutral" where it was found. */
    method SwitchSpecial(quitLast: Option<nat>, enterFirst: Option<nat>, ghost subs: seq<SubState>)
      requires |stateList| == |subs| && forall j :: 0 <= j < |subs| ==> stateList[j] == Left(subs[j])
      requires IsSpecial(subs, Deactivate, quitLast) && IsSpecial(subs, Activate, enterFirst)
      modifies `stateList, `history
      ensures history == old(history).(calls := old(history).calls + Quits(Affected(subs, Deactivate, true))
                                                + Enters(Affected(subs, Activate, true)))
      ensures |stateList| == |subs| && forall j :: 0 <= j < |subs| ==> stateList[j] == LeftOrFirst(subs[j])
    {
      QuitSpecial(quitLast, subs);
      EnterSpecial(enterFirst, subs);
    }

    method QuitSpecial(quitLast: Option<nat>, ghost subs: seq<SubState>)
      requires |stateList| == |subs| && forall j :: 0 <= j < |subs| ==> stateList[j] == Left(subs[j])
      requires IsSpecial(subs, Deactivate, quitLast)
      modifies `stateList, `history
      ensures history == old(history).(calls := old(history).calls + Quits(Affected(subs, Deactivate, true)))
      ensures |stateList| == |subs| && forall j :: 0 <= j < |subs| ==> stateList[j] == LeftAll(subs[j])
    {
      if quitLast.Some? { CallQuit(quitLast.value); }
    }

    method EnterSpecial(enterFirst: Option<nat>, ghost subs: seq<SubState>)
      requires |stateList| == |subs| && forall j :: 0 <= j < |subs| ==> stateList[j] == LeftAll(subs[j])
      requires IsSpecial(subs, Activate, enterFirst)
      modifies `stateList, `history
      ensures history == old(history).(calls := old(history).calls + Enters(Affected(subs, Activate, true)))
      ensures |stateList| == |subs| && forall j :: 0 <= j < |subs| ==> stateList[j] == LeftOrFirst(subs[j])
    {
      if enterFirst.Some? { CallEnter(enterFirst.value); }
    }

    /** Call the handlers and switch the substates, "nonneutral" between the others. */
    method SwitchSubStates()
      requires Valid()
      modifies `stateList, `history
      ensures stateList == Switched(old(stateList))
      ensures history == old(history).(calls := old(history).calls + HandlerCalls(old(stateList)))
    {
      ghost var subs := stateList;
      var quitLast, enterFirst := QuitOthers();
      SwitchSpecial(quitLast, enterFirst, subs);
      AffectedSame(stateList, subs);
      EnterOthers();
      SwitchedInTurns(subs, stateList);
      CallsOf(old(history).calls, subs);
    }

    method PerformChange()
      requires Valid()
      modifies this
      ensures Model() == Perform(old(Model()))
    {
      if desiredState.state == DEACTIVATED || desiredState.state == DEACTIVATED_LOWER {
        desiredState := desiredState.(state := NEUTRAL);
      }
      SwitchSubStates();
      NotifyActive();
      currentState := desiredState.state;
      if desiredState.waiter.Some? {
        history := history.(completed := history.completed + [desiredState.waiter.value]);
      }
    }

    /** Perform the pending change unless a substate that it leaves is counted. */
    method AttemptChange()
      requires Valid()
      modifies this
      ensures Valid()
      ensures var marked := old(Model()).(subs := Marked(old(stateList), old(currentState), old(desiredState).state));
        Model() == if Locked(marked.subs) then marked else Settle(Perform(marked), OK)
    {
      MarkActions();
      var locked := IsLocked();
      if !locked {
        PerformChange();
        AnswerPending(OK);
      }
    }

    method UpdateState()
      requires Valid()
      modifies this
      ensures Valid() && Model() == M.UpdateState(old(Model()))
    {
      if changePending {
        if desiredState.state == currentState {
          AnswerPending(OK);
        } else {
          var valid := IsListed(desiredState.state);
          if valid || desiredState.state == DEACTIVATED_LOWER || desiredState.state == DEACTIVATED || desiredState.state == ALIVE {
            AttemptChange();
          } else {
            AnswerPending(UnknownState);
          }
        }
      } else {
        AnswerPending(Error);
      }
    }

    /** Overwrite the desired state with the head of the queue. A request that was
        still pending is dropped, and its master is not answered. */
    method TakeRequest()
      requires |stateQueue| > 0
      modifies this
      ensures Model() == Dequeue(old(Model()))
    {
      if desiredState.query.Some? {
        history := history.(superseded := history.superseded + [desiredState.query.value]);
      }
      desiredState := stateQueue[0];
      changePending := true;
      stateQueue := stateQueue[1..];
      history := history.(dequeued := history.dequeued + [desiredState]);
    }

    /** One turn of the update thread: it stops for good once it has taken a
        Shutdown request from the queue. */
    method UpdateStateFromThread()
      requires Valid()
      modifies this
      ensures Valid() && Model() == Dispatch(old(Model()))
    {
      if !updateThreadRunning || |stateQueue| == 0 {
        return;
      }
      TakeRequest();
      var desired := desiredState.state;
      UpdateState();
      if desired == SHUTDOWN {
        updateThreadRunning := false;
      }
    }

    // ---------- requests ----------

    method PushFront(r: Request)
      modifies `stateQueue, `history
      ensures Model() == PushHead(old(Model()), r)
    {
      stateQueue := [r] + stateQueue;
      history := history.(queued := history.queued + [r]);
    }

    method PushBack(r: Request)
      modifies `stateQueue, `history
      ensures Model() == PushTail(old(Model()), r)
    {
      stateQueue := stateQueue + [r];
      history := history.(queued := history.queued + [r]);
    }

    /** A master asks for a main state: refused at once, or queued and answered by
        the update thread or by a release. */
    method HndSetMainState(query: nat, mainstate: Name)
      modifies this
      ensures Model() == SetMainState(old(Model()), query, mainstate)
    {
      history := history.(asked := history.asked + [Asking(query, mainstate)]);
      var refusal: Option<Status> := None;
      if !running {
        refusal := Some(NotActivated);
      } else if mainstate == INIT || mainstate == INIT_LOWER || mainstate == ALIVE || mainstate == ALIVE_LOWER
             || mainstate == FATAL_ERROR || mainstate == FATAL_ERROR_LOWER || mainstate == FATAL_ERROR_CAMEL {
        refusal := Some(NotAllowed);
      } else if mainstate == SHUTDOWN {
        PushFront(Request(mainstate, Some(query), None));
      } else if currentState == INIT {
        refusal := Some(NotActivated);
      } else if currentState == SHUTDOWN || currentState == FATAL_ERROR {
        refusal := Some(Cancelled);
      } else {
        PushBack(Request(mainstate, Some(query), None));
      }
      if refusal.Some? {
        history := history.(answers := history.answers + [Reply(query, refusal.value)]);
      }
    }

    /** setWaitState up to its first wait. */
    method BeginSetWaitState(waiter: nat, mainstate: Name) returns (outcome: Outcome)
      modifies this
      ensures Model() == SetWaitState(old(Model()), waiter, mainstate)
      ensures outcome == WaitOutcome(old(Model()), mainstate)
    {
      var entry := Request(mainstate, None, Some(waiter));
      if !running {
        outcome := Returned(NotActivated);
      } else if mainstate == ALIVE || mainstate == FATAL_ERROR || mainstate == SHUTDOWN {
        if currentState == INIT {
          PushFront(entry);
          outcome := Waits(false);
        } else if currentState == SHUTDOWN {
          outcome := Returned(if mainstate == SHUTDOWN then OK else NotAllowed);
        } else if currentState == FATAL_ERROR {
          if mainstate == SHUTDOWN {
            PushFront(entry);
            outcome := Waits(false);
          } else if mainstate == FATAL_ERROR {
            outcome := Returned(OK);
          } else {
            outcome := Returned(NotAllowed);
          }
        } else if mainstate == ALIVE {
          outcome := Returned(OK);
        } else {
          PushFront(entry);
          outcome := Waits(false);
        }
      } else {
        outcome := Returned(NotAllowed);
      }
    }

    /** setWaitState("Alive") from Init, after its first wait. */
    method ContinueSetWaitState(waiter: nat)
      modifies this
      ensures Model() == EnterInitialState(old(Model()), waiter)
    {
      PushBack(Request(initialState, None, Some(waiter)));
    }

    // ---------- substates ----------

    /** The last substate of the name. */
    method Lookup(name: Name) returns (r: Option<nat>)
      ensures r == Find(stateList, name)
    {
      r := None;
      for i := 0 to |stateList|
        invariant r == Find(stateList[..i], name)
      {
        assert stateList[..i + 1][..i] == stateList[..i];
        if stateList[i].name == name { r := Some(i); }
      }
      assert stateList[..|stateList|] == stateList;
    }

    method CountBy(i: nat, d: int)
      requires i < |stateList|
      modifies `stateList
      ensures Model() == Bump(old(Model()), i, d)
    {
      stateList := stateList[i := stateList[i].(cnt := stateList[i].cnt + d)];
    }

    /** acquire once it need not wait any more. */
    method FinishAcquire(i: nat, reserved: bool) returns (status: Status)
      requires i < |stateList|
      modifies `stateList
      ensures (Model(), status) == M.FinishAcquire(old(Model()), i, reserved)
    {
      if currentState == SHUTDOWN {
        if reserved { CountBy(i, -1); }
        status := NotActivated;
      } else {
        if !reserved { CountBy(i, 1); }
        status := OK;
      }
    }

    /** acquire up to its wait. */
    method BeginAcquire(substate: Name) returns (outcome: Outcome)
      modifies `stateList
      ensures (Model(), outcome) == M.BeginAcquire(old(Model()), substate)
    {
      if !running {
        return Returned(NotActivated);
      }
      var at := Lookup(substate);
      if at.None? {
        return Returned(UnknownState);
      }
      var i := at.value;
      if changePending {
        if stateList[i].action != Keep || !stateList[i].active {
          return Waits(false);
        }
        var status := FinishAcquire(i, false);
        return Returned(status);
      } else if stateList[i].active {
        CountBy(i, 1);
        return Returned(OK);
      } else {
        CountBy(i, 1);
        if currentState != SHUTDOWN {
          return Waits(true);
        }
        var status := FinishAcquire(i, true);
        return Returned(status);
      }
    }

    /** acquire after its wait. */
    method ResumeAcquire(substate: Name, reserved: bool) returns (status: Status)
      modifies `stateList
      ensures (Model(), status) == M.ResumeAcquire(old(Model()), substate, reserved)
    {
      var at := Lookup(substate);
      if at.None? {
        return UnknownState;
      }
      status := FinishAcquire(at.value, reserved);
    }

    method TryAcquire(substate: Name) returns (status: Status)
      modifies `stateList
      ensures (Model(), status) == M.TryAcquire(old(Model()), substate)
    {
      if !running {
        return NotActivated;
      }
      var at := Lookup(substate);
      if at.None? {
        return UnknownState;
      }
      var i := at.value;
      if changePending {
        if stateList[i].action == Keep && stateList[i].active {
          CountBy(i, 1);
          return OK;
        }
        return NotActivated;
      } else if stateList[i].active {
        CountBy(i, 1);
        return OK;
      }
      return NotActivated;
    }

    /** Count down, and perform the pending change if nothing is in its way now. */
    method Release(substate: Name) returns (status: Status)
      requires Valid()
      modifies this
      ensures Valid() && Model() == M.Release(old(Model()), substate)
      ensures status == ReleaseStatus(old(Model()), substate)
    {
      if !running {
        return NotActivated;
      }
      var at := Lookup(substate);
      if at.None? {
        return UnknownState;
      }
      var i := at.value;
      if stateList[i].active {
        if stateList[i].cnt > 0 {
          CountBy(i, -1);
        }
      } else {
        history := history.(ignored := history.ignored + [stateList[i].name]);
      }
      UpdateState();
      return OK;
    }

    // ---------- configuration ----------

    method Occurrences(name: Name) returns (count: nat, last: Option<nat>)
      ensures count == M.Occurrences(stateList, name) && last == Find(stateList, name)
    {
      count, last := 0, None;
      for i := 0 to |stateList|
        invariant count == M.Occurrences(stateList[..i], name) && last == Find(stateList[..i], name)
      {
        assert stateList[..i + 1][..i] == stateList[..i];
        if stateList[i].name == name { count, last := count + 1, Some(i); }
      }
      assert stateList[..|stateList|] == stateList;
    }

    method CountMain(names: seq<Name>, m: Name) returns (count: nat)
      ensures count == Count(names, m)
    {
      count := 0;
      for i := 0 to |names|
        invariant count == Count(names[..i], m)
      {
        assert names[..i + 1][..i] == names[..i];
        if names[i] == m { count := count + 1; }
      }
      assert names[..|names|] == names;
    }

    /** Add a main state to the substate of the name, which must occur once. */
    method AssignMain(name: Name, m: Name) returns (status: Status)
      modifies `stateList
      ensures (stateList, status) == Assign(old(stateList), name, m)
    {
      var countS, at := Occurrences(name);
      if at.None? || countS != 1 {
        return Error;
      }
      var i := at.value;
      var countM := CountMain(stateList[i].mainstates, m);
      if countM == 0 {
        stateList := stateList[i := stateList[i].(mainstates := stateList[i].mainstates + [m])];
        return OK;
      }
      assert stateList == stateList[i := stateList[i]];
      return if countM == 1 then OK else Error;
    }

    method DefineStates(mainstate: Name, substate: Name) returns (status: Status)
      modifies `stateList
      ensures (Model(), status) == M.DefineStates(old(Model()), mainstate, substate)
    {
      if running {
        return AlreadyActivated;
      }
      if ReservedMain(mainstate) || ReservedSub(substate) {
        return NotAllowed;
      }
      status := AssignMain(NONNEUTRAL_LOWER, mainstate);
      if status == OK {
        var at := Lookup(substate);
        if at.None? {
          stateList := stateList + [SubState(substate, [mainstate], 0, Keep, false)];
        } else {
          status := AssignMain(substate, mainstate);
        }
      }
    }

    method SetUpInitialState(mainstate: Name) returns (status: Status)
      modifies `initialState
      ensures (Model(), status) == M.SetUpInitialState(old(Model()), mainstate)
    {
      if mainstate == NEUTRAL {
        initialState := mainstate;
        return OK;
      }
      var countS, at := Occurrences(NONNEUTRAL_LOWER);
      if at.None? || countS != 1 {
        return Error;
      }
      var found := Contains(stateList[at.value].mainstates, mainstate);
      if found {
        initialState := mainstate;
        return OK;
      }
      return Error;
    }

    /** The source's activate(). */
    method ActivateStates() returns (status: Status)
      modifies `running
      ensures Model() == old(Model()).(running := true) && status == OK
    {
      running := true;
      status := OK;
    }

    // ---------- queries answered at once ----------

    method HndGetCurrentState() returns (status: Status, mainstate: Option<Name>)
      ensures status == (if running then OK else NotActivated)
      ensures mainstate == if running then Some(currentState) else None
    {
      status, mainstate := NotActivated, None;
      if running { status, mainstate := OK, Some(currentState); }
    }

    method HndGetMainStates() returns (status: Status, mainstates: seq<Name>)
      ensures (status, mainstates) == if running then MainStates(stateList) else (NotActivated, [])
    {
      status, mainstates := NotActivated, [];
      if running {
        mainstates := [NEUTRAL];
        var at := Lookup(NONNEUTRAL_LOWER);
        if at.Some? {
          status, mainstates := OK, mainstates + stateList[at.value].mainstates;
        } else {
          status := Error;
        }
      }
    }

    method HndGetSubStates(mainstate: Name) returns (status: Status, substates: seq<Name>)
      ensures !running ==> status == NotActivated && substates == []
      ensures running ==> substates == SubStates(stateList, mainstate)
      ensures running ==> status == if SubStates(stateList, mainstate) == [] then UnknownState else OK
    {
      status, substates := NotActivated, [];
      if running {
        for i := 0 to |stateList|
          invariant substates == SubStates(stateList[..i], mainstate)
        {
          assert stateList[..i + 1][..i] == stateList[..i];
          var found := Contains(stateList[i].mainstates, mainstate);
          if found { substates := substates + [stateList[i].name]; }
        }
        assert stateList[..|stateList|] == stateList;
        status := if |substates| == 0 then UnknownState else OK;
      }
    }

    /** The main state being entered, or the current one. */
    method GetCurrentMainState() returns (mainstate: Name)
      ensures mainstate == Monitored(Model())
    {
      mainstate := currentState;
      if changePending { mainstate := desiredState.state; }
    }
  }

  class StateSlaveHandler {
    const stateSlave: StateSlave

    constructor (slave: StateSlave)
      ensures stateSlave == slave
    {
      stateSlave := slave;
    }

    /** Only a set-state query is deferred, and only it changes the slave. */
    method HandleQuery(id: nat, request: Query) returns (response: Option<StateResponse>)
      modifies stateSlave
      ensures stateSlave.Model()
        == if request.SetState? then SetMainState(old(stateSlave.Model()), id, request.name) else old(stateSlave.Model())
      ensures response == Response(old(stateSlave.Model()), request)
    {
      response := None;
      match request
      case SetState(name) =>
        stateSlave.HndSetMainState(id, name);
      case GetCurrentState =>
        var status, mainstate := stateSlave.HndGetCurrentState();
        response := Some(StateResponse(status, [if mainstate.Some? then mainstate.value else EMPTY]));
      case GetMainStates =>
        var status, states := stateSlave.HndGetMainStates();
        response := Some(StateResponse(status, states));
      case GetSubStates(name) =>
        var status, states := stateSlave.HndGetSubStates(name);
        response := Some(StateResponse(status, states));
      case OtherCommand =>
    }
  }
}
