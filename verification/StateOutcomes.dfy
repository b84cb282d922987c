/** The outcome of every section of the state slave, told by the conditions under
    which a caller or a master meets it. */
module StateOutcomes {
  import opened Names
  import opened StateModel
  import opened StateConfig
  import opened StateInvariant
  import opened StateReplies
  import opened StateCalls
  import opened StateSystem

  // ---------- one turn of the update thread ----------

  /** Some substate lists the main state, or it is one of three commands. */
  ghost predicate Known(subs: seq<SubState>, m: Name) {
    || (exists i :: 0 <= i < |subs| && m in subs[i].mainstates)
    || m == DEACTIVATED || m == DEACTIVATED_LOWER || m == ALIVE
  }

  /** The substate is to be left, and counted. */
  predicate Held(sub: SubState, current: Name, m: Name) {
    current in sub.mainstates && m !in sub.mainstates && sub.cnt != 0
  }

  ghost predicate SomeHeld(subs: seq<SubState>, current: Name, m: Name) {
    exists i :: 0 <= i < |subs| && Held(subs[i], current, m)
  }

  /** The same substates with the same counts. */
  ghost predicate SameCounts(a: seq<SubState>, b: seq<SubState>) {
    |a| == |b| && forall i :: 0 <= i < |a| ==>
      a[i].name == b[i].name && a[i].mainstates == b[i].mainstates && a[i].cnt == b[i].cnt
  }

  /** The main state and the active substates stay, no handler is called and nobody
      is notified. */
  ghost predicate Nothing(s: State, s': State) {
    && s'.current == s.current && SameCounts(s.subs, s'.subs)
    && (forall i :: 0 <= i < |s.subs| ==> s'.subs[i].active == s.subs[i].active)
    && s'.h.calls == s.h.calls && s'.h.woken == s.h.woken && s'.h.completed == s.h.completed
  }

  /** The change that `r` asks for has happened: "Deactivated" leads to Neutral; the
      substates of the named state are active, and no others, and the handler was
      called for those that changed; whoever waits for an
      active substate, and in Shutdown everybody who waits for one, is notified, and so
      is the caller that made the request. */
  ghost predicate Changed(s: State, s': State, r: Request) {
    && s'.current == (if r.state == DEACTIVATED || r.state == DEACTIVATED_LOWER then NEUTRAL else r.state)
    && SameCounts(s.subs, s'.subs)
    && (forall i :: 0 <= i < |s.subs| ==> (s'.subs[i].active <==> r.state in s.subs[i].mainstates))
    && s.h.calls <= s'.h.calls && CallsOfChange(s.subs, s.current, r.state, s'.h.calls[|s.h.calls|..])
    && s.h.woken <= s'.h.woken && s'.h.completed == s.h.completed + AsSeq(r.waiter)
    && (forall i :: 0 <= i < |s.subs| ==>
          (s.subs[i].name in s'.h.woken[|s.h.woken|..] <==> r.state in s.subs[i].mainstates || r.state == SHUTDOWN))
  }

  /** The master that made the request, if a master did, is told the status. */
  ghost predicate Tells(s: State, s': State, r: Request, status: Status) {
    !s'.pending && s'.h.answers == s.h.answers + Replies(r.query, status)
  }

  /** What the request `r` leads to, when nothing else is pending. */
  ghost predicate Handled(s: State, s': State, r: Request) {
    if r.state == s.current then Nothing(s, s') && s'.subs == s.subs && Tells(s, s', r, OK)
    else if !Known(s.subs, r.state) then Nothing(s, s') && s'.subs == s.subs && Tells(s, s', r, UnknownState)
    else if SomeHeld(s.subs, s.current, r.state) then
      Nothing(s, s') && s'.pending && s'.desired == r && s'.h.answers == s.h.answers
    else Changed(s, s', r) && Tells(s, s', r, OK)
  }

  lemma SettleTells(s: State, status: Status)
    ensures Tells(s, Settle(s, status), s.desired, status)
  {
    AnswerReplies(s.h, s.desired.query, status);
  }

  lemma KnownIsAcceptable(subs: seq<SubState>, m: Name)
    ensures Known(subs, m) <==> Acceptable(subs, m)
  {
  }

  lemma HeldIsLocked(subs: seq<SubState>, current: Name, m: Name)
    ensures SomeHeld(subs, current, m) <==> Locked(Marked(subs, current, m))
  {
    var marked := Marked(subs, current, m);
    forall i | 0 <= i < |subs| ensures Held(subs[i], current, m) <==> Blocks(marked[i]) {}
    if SomeHeld(subs, current, m) {
      var i :| 0 <= i < |subs| && Held(subs[i], current, m);
      assert Blocks(marked[i]);
    }
  }

  /** Substates after a change, in terms of those before. */
  lemma SwitchedSubs(subs: seq<SubState>, current: Name, m: Name)
    requires Config(subs) && m != current
    requires ActiveIn(subs, current) || (current == NEUTRAL && AllInactive(subs))
    ensures var r := Switched(Marked(subs, current, m));
      SameCounts(subs, r) && UniqueNames(r) && forall i :: 0 <= i < |subs| ==> (r[i].active <==> m in subs[i].mainstates)
  {
    var r := Switched(Marked(subs, current, m));
    SwitchedActiveSet(subs, current, m);
    ReservedListed(subs);
    assert SameCounts(subs, r);
  }

  lemma WokenBy(s: State, subs: seq<SubState>, r: seq<SubState>, m: Name)
    requires SameCounts(subs, r) && UniqueNames(r)
    requires forall i :: 0 <= i < |subs| ==> (r[i].active <==> m in subs[i].mainstates)
    ensures forall i :: 0 <= i < |subs| ==>
      (subs[i].name in Notices(r, Target(m)) <==> m in subs[i].mainstates || m == SHUTDOWN)
  {
    forall i | 0 <= i < |subs|
      ensures subs[i].name in Notices(r, Target(m)) <==> m in subs[i].mainstates || m == SHUTDOWN
    {
      NoticesExact(r, Target(m), i);
    }
  }

  lemma PerformedChanges(s: State)
    requires Core(s) && s.pending && s.desired.state != s.current && Acceptable(s.subs, s.desired.state)
    requires !Locked(Marked(s.subs, s.current, s.desired.state))
    ensures Changed(s, UpdateState(s), s.desired) && Tells(s, UpdateState(s), s.desired, OK)
  {
    var m := s.desired.state;
    var marked := s.(subs := Marked(s.subs, s.current, m));
    var r := UpdateState(s);
    assert r == Settle(Perform(marked), OK);
    SwitchedSubs(s.subs, s.current, m);
    PerformedEffect(s, marked);
    WokenBy(s, s.subs, r.subs, m);
    ChangeCalls(s.subs, s.current, m);
    assert (s.h.calls + HandlerCalls(marked.subs))[|s.h.calls|..] == HandlerCalls(marked.subs);
    assert (s.h.woken + Notices(r.subs, Target(m)))[|s.h.woken|..] == Notices(r.subs, Target(m));
    SettleTells(Perform(marked), OK);
  }

  /** updateState on a pending request. */
  lemma UpdateStateHandles(s: State)
    requires Core(s) && s.pending
    ensures Handled(s, UpdateState(s), s.desired)
  {
    KnownIsAcceptable(s.subs, s.desired.state);
    HeldIsLocked(s.subs, s.current, s.desired.state);
    if s.desired.state == s.current {
      SettleTells(s, OK);
    } else if !Acceptable(s.subs, s.desired.state) {
      SettleTells(s, UnknownState);
    } else if !Locked(Marked(s.subs, s.current, s.desired.state)) {
      PerformedChanges(s);
    }
  }

  /** One turn of the update thread: it takes the first request. One for the current
      main state is answered OK, and nothing else happens; one for an unknown main
      state is answered UNKNOWNSTATE, and nothing else happens; one that must leave a
      counted substate stays pending; and any other is performed, notified and
      answered OK. Taking Shutdown is the last turn. */
  lemma TurnOutcome(s: State)
    requires Inv(s) && s.dispatching && s.queue != []
    ensures Handled(s, Dispatch(s), s.queue[0])
    ensures Dispatch(s).queue == s.queue[1..] && (Dispatch(s).dispatching <==> s.queue[0].state != SHUTDOWN)
  {
    DequeueKeepsCore(s);
    UpdateStateHandles(Dequeue(s));
    UpdateStateFrame(Dequeue(s));
    var d, r := Dequeue(s), UpdateState(Dequeue(s));
    assert SameCounts(s.subs, d.subs);
    assert Handled(d, r, s.queue[0]);
    HandledFrom(s, d, r, Dispatch(s), s.queue[0]);
  }

  /** The outcome depends on these fields only. */
  lemma HandledFrom(s: State, d: State, r: State, s': State, q: Request)
    requires d.subs == s.subs && d.current == s.current && d.h.answers == s.h.answers
    requires d.h.calls == s.h.calls && d.h.woken == s.h.woken && d.h.completed == s.h.completed
    requires s' == r || s' == r.(dispatching := false)
    requires Handled(d, r, q)
    ensures Handled(s, s', q)
  {
  }

  // ---------- who is notified ----------

  /** The request that a section works on. */
  function InHand(s: State, op: Op): Option<Request> {
    if op.OpDispatch? then (if s.dispatching && s.queue != [] then Some(s.queue[0]) else None)
    else if op.OpRelease? && s.pending then Some(s.desired)
    else None
  }

  /** It asks for another main state than the current one, and that is reached now: the
      component moves, or is deactivated. */
  ghost predicate Moves(s: State, s': State, r: Request) {
    && r.state != s.current
    && s'.current == (if r.state == DEACTIVATED || r.state == DEACTIVATED_LOWER then NEUTRAL else r.state)
  }

  ghost predicate Notifies(s: State, s': State) {
    s'.h.completed != s.h.completed || s'.h.woken != s.h.woken
  }

  lemma TurnNotifies(s: State)
    requires Inv(s)
    ensures Notifies(s, Dispatch(s)) ==> s.dispatching && s.queue != [] && Moves(s, Dispatch(s), s.queue[0])
  {
    if s.dispatching && s.queue != [] { TurnOutcome(s); }
  }

  lemma ReleaseNotifies(s: State, n: Name)
    requires Inv(s)
    ensures Notifies(s, Release(s, n)) ==> s.pending && Moves(s, Release(s, n), s.desired)
  {
    UnknownName(s.subs, n);
    var at := Find(s.subs, n);
    ReleaseOutcome(s, n, if at.Some? then at.value else |s.subs|);
  }

  /** A section notifies somebody only if it performs a change to another main state
      than the current one. */
  lemma NotifiesOnChange(s: State, op: Op)
    requires Inv(s)
    ensures Notifies(s, Step(s, op)) ==> InHand(s, op).Some? && Moves(s, Step(s, op), InHand(s, op).value)
  {
    match op
    case OpDispatch => TurnNotifies(s);
    case OpRelease(n) => ReleaseNotifies(s, n);
    case _ => OthersNotifyNobody(s, op);
  }

  lemma OthersNotifyNobody(s: State, op: Op)
    requires !op.OpDispatch? && !op.OpRelease?
    ensures !Notifies(s, Step(s, op))
  {
    if IsQuiet(op) { QuietFrame(s, op); }
  }

  // ---------- requests of masters ----------

  /** The names that no master may command. */
  predicate Internal(m: Name) {
    m in [INIT, INIT_LOWER, ALIVE, ALIVE_LOWER, FATAL_ERROR, FATAL_ERROR_LOWER, FATAL_ERROR_CAMEL]
  }

  predicate Refused(s: State, s': State, q: nat, status: Status) {
    s'.h.answers == s.h.answers + [Reply(q, status)]
  }

  /** Why a request is not queued. */
  predicate Reason(s: State, m: Name, status: Status) {
    match status
    case NotAllowed => s.running && Internal(m)
    case Cancelled => s.running && !Internal(m) && m != SHUTDOWN && s.current in [SHUTDOWN, FATAL_ERROR]
    case NotActivated => !s.running || (!Internal(m) && m != SHUTDOWN && s.current == INIT)
    case _ => false
  }

  /** A master's request is queued if and only if the slave is activated and it is for
      Shutdown, or for a name that is none of seven spellings while the component is
      neither in Init nor in Shutdown nor in FatalError. Shutdown is queued first, and
      all others last. What is not queued is answered at once, with the reason. */
  lemma MasterOutcome(s: State, q: nat, m: Name)
    ensures var s', r := SetMainState(s, q, m), Request(m, Some(q), None);
      var accepted := s.running && (m == SHUTDOWN || (!Internal(m) && s.current !in [INIT, SHUTDOWN, FATAL_ERROR]));
      && (accepted ==> s'.h.answers == s.h.answers && s'.queue == if m == SHUTDOWN then [r] + s.queue else s.queue + [r])
      && (!accepted ==> s'.queue == s.queue && exists status :: Refused(s, s', q, status) && Reason(s, m, status))
      && s'.h.asked == s.h.asked + [Asking(q, m)]
      && s' == s.(queue := s'.queue, h := s.h.(asked := s'.h.asked, answers := s'.h.answers, queued := s'.h.queued))
  {
    if Refusal(s, m).Some? {
      assert Refused(s, SetMainState(s, q, m), q, Refusal(s, m).value);
    }
  }

  // ---------- acquire and release ----------

  ghost predicate HasName(subs: seq<SubState>, n: Name) {
    exists i :: 0 <= i < |subs| && subs[i].name == n
  }

  lemma UnknownName(subs: seq<SubState>, n: Name)
    ensures HasName(subs, n) <==> Find(subs, n).Some?
  {
  }

  /** `s` with `d` more counts of its substate at `i`. */
  ghost predicate Counted(s: State, s': State, i: nat, d: int)
    requires i < |s.subs|
  {
    && s' == s.(subs := s'.subs) && |s'.subs| == |s.subs|
    && s'.subs[i] == s.subs[i].(cnt := s.subs[i].cnt + d)
    && forall j :: 0 <= j < |s.subs| && j != i ==> s'.subs[j] == s.subs[j]
  }

  /** The substate is active and no pending change leaves it. */
  predicate Free(s: State, i: nat)
    requires i < |s.subs|
  {
    s.subs[i].active && (s.pending ==> s.desired.state in s.subs[i].mainstates)
  }

  lemma FreeIsKept(s: State, i: nat)
    requires Inv(s) && i < |s.subs|
    ensures Free(s, i) <==> s.subs[i].active && (s.pending ==> s.subs[i].action == Keep)
  {
    if s.pending {
      assert s.subs[i] == Mark(s.subs[i], s.current, s.desired.state);
      assert s.subs[i].active ==> s.current in s.subs[i].mainstates;
    }
  }

  /** acquire up to its wait: it counts and returns OK for a substate that is active
      and stays so, waits without a count while a change is pending, waits with a
      count when none is, and is refused in Shutdown. */
  lemma AcquireOutcome(s: State, n: Name, i: nat)
    requires Inv(s)
    ensures !s.running ==> BeginAcquire(s, n) == (s, Returned(NotActivated))
    ensures s.running && !HasName(s.subs, n) ==> BeginAcquire(s, n) == (s, Returned(UnknownState))
    ensures s.running && i < |s.subs| && s.subs[i].name == n ==>
      var (s', outcome) := BeginAcquire(s, n);
      if Free(s, i) then outcome == Returned(OK) && Counted(s, s', i, 1)
      else if s.pending then outcome == Waits(false) && s' == s
      else if s.current == SHUTDOWN then outcome == Returned(NotActivated) && s' == s
      else outcome == Waits(true) && Counted(s, s', i, 1)
  {
    UnknownName(s.subs, n);
    if s.running && i < |s.subs| && s.subs[i].name == n {
      FindAt(s.subs, i);
      FreeIsKept(s, i);
      AcquireAtOutcome(s, i);
    }
  }

  lemma AcquireAtOutcome(s: State, i: nat)
    requires i < |s.subs| && (s.pending ==> s.current != SHUTDOWN)
    requires Free(s, i) <==> s.subs[i].active && (s.pending ==> s.subs[i].action == Keep)
    ensures var (s', outcome) := BeginAcquireAt(s, i);
      if Free(s, i) then outcome == Returned(OK) && Counted(s, s', i, 1)
      else if s.pending then outcome == Waits(false) && s' == s
      else if s.current == SHUTDOWN then outcome == Returned(NotActivated) && s' == s
      else outcome == Waits(true) && Counted(s, s', i, 1)
  {
    assert Bump(Bump(s, i, 1), i, -1).subs == s.subs;
  }

  /** ... and after its wait: in Shutdown it is refused and its count, if it has one,
      taken back; otherwise it returns OK, and counts if it has not counted yet. */
  lemma ResumeOutcome(s: State, i: nat, reserved: bool)
    requires Inv(s) && i < |s.subs|
    ensures var (s', status) := ResumeAcquire(s, s.subs[i].name, reserved);
      if s.current == SHUTDOWN then status == NotActivated && Counted(s, s', i, if reserved then -1 else 0)
      else status == OK && Counted(s, s', i, if reserved then 0 else 1)
  {
    FindAt(s.subs, i);
  }

  /** tryAcquire: OK under the same condition as acquire, and refused otherwise. */
  lemma TryOutcome(s: State, n: Name, i: nat)
    requires Inv(s)
    ensures !s.running ==> TryAcquire(s, n) == (s, NotActivated)
    ensures s.running && !HasName(s.subs, n) ==> TryAcquire(s, n) == (s, UnknownState)
    ensures s.running && i < |s.subs| && s.subs[i].name == n ==>
      var (s', status) := TryAcquire(s, n);
      if Free(s, i) then status == OK && Counted(s, s', i, 1) else status == NotActivated && s' == s
  {
    UnknownName(s.subs, n);
    if s.running && i < |s.subs| && s.subs[i].name == n {
      FindAt(s.subs, i);
      FreeIsKept(s, i);
    }
  }

  /** What a release does to the counts: it takes one back, if there is one and the
      substate is active. */
  function Less(subs: seq<SubState>, i: nat): (r: seq<SubState>)
    requires i < |subs|
    ensures |r| == |subs|
  {
    subs[i := subs[i].(cnt := if subs[i].active && subs[i].cnt > 0 then subs[i].cnt - 1 else subs[i].cnt)]
  }

  lemma CountDownIsLess(s: State, i: nat)
    requires i < |s.subs|
    ensures var c := CountDown(s, i);
      c.subs == Less(s.subs, i)
      && c == s.(subs := c.subs, h := s.h.(ignored := if s.subs[i].active then s.h.ignored else s.h.ignored + [s.subs[i].name]))
  {
    if !(s.subs[i].active && s.subs[i].cnt > 0) { assert Less(s.subs, i) == s.subs; }
  }

  /** release: refused before activation and for an unknown name; otherwise it takes
      a count back, or is ignored on an inactive substate, and then performs the
      pending change, if there is one and nothing that it leaves is counted any more. */
  lemma ReleaseOutcome(s: State, n: Name, i: nat)
    requires Inv(s)
    ensures !s.running ==> ReleaseStatus(s, n) == NotActivated && Release(s, n) == s
    ensures s.running && !HasName(s.subs, n) ==> ReleaseStatus(s, n) == UnknownState && Release(s, n) == s
    ensures s.running && i < |s.subs| && s.subs[i].name == n ==>
      var s', subs := Release(s, n), Less(s.subs, i);
      && ReleaseStatus(s, n) == OK
      && s'.h.ignored == (if s.subs[i].active then s.h.ignored else s.h.ignored + [n])
      && (if s.pending && !SomeHeld(subs, s.current, s.desired.state) then
            Changed(s.(subs := subs), s', s.desired) && Tells(s, s', s.desired, OK)
          else s' == s.(subs := subs, h := s.h.(ignored := s'.h.ignored)))
  {
    UnknownName(s.subs, n);
    if s.running && i < |s.subs| && s.subs[i].name == n {
      FindAt(s.subs, i);
      CountDownIsLess(s, i);
      CountDownReady(s, i);
      ReleasedOutcome(s, CountDown(s, i));
    }
  }

  /** After the count is taken back: nothing is pending, or a marked and known change. */
  ghost predicate Ready(c: State) {
    && Core(c)
    && (c.pending ==>
          && c.desired.state != c.current && Acceptable(c.subs, c.desired.state)
          && c.subs == Marked(c.subs, c.current, c.desired.state))
  }

  lemma CountDownReady(s: State, i: nat)
    requires Inv(s) && i < |s.subs|
    ensures Ready(CountDown(s, i))
  {
    CountDownKeepsCore(s, i);
    CountDownFrame(s, i);
    if s.pending {
      CountDownMarked(s, i);
      ListedTransfer(s.subs, CountDown(s, i).subs);
    }
  }

  lemma ReleasedOutcome(s: State, c: State)
    requires Ready(c) && c == s.(subs := c.subs, h := s.h.(ignored := c.h.ignored))
    ensures var s' := UpdateState(c);
      && s'.h.ignored == c.h.ignored
      && (if s.pending && !SomeHeld(c.subs, s.current, s.desired.state) then
            Changed(s.(subs := c.subs), s', s.desired) && Tells(s, s', s.desired, OK)
          else s' == c)
  {
    IgnoredStays(c);
    if c.pending {
      CountedDownOutcome(c);
      HeldBefore(s, c, UpdateState(c));
    } else {
      NothingPending(c);
    }
  }

  lemma HeldBefore(s: State, c: State, s': State)
    requires c == s.(subs := c.subs, h := s.h.(ignored := c.h.ignored))
    ensures !SomeHeld(c.subs, c.current, c.desired.state) && Changed(c, s', c.desired) && Tells(c, s', c.desired, OK) ==>
      Changed(s.(subs := c.subs), s', s.desired) && Tells(s, s', s.desired, OK)
  {
  }

  lemma NothingPending(c: State)
    requires !c.pending && c.desired.query.None?
    ensures UpdateState(c) == c
  {
  }

  lemma CountedDownOutcome(c: State)
    requires Core(c) && c.pending && c.desired.state != c.current && Acceptable(c.subs, c.desired.state)
    requires c.subs == Marked(c.subs, c.current, c.desired.state)
    ensures if SomeHeld(c.subs, c.current, c.desired.state) then UpdateState(c) == c
      else Changed(c, UpdateState(c), c.desired) && Tells(c, UpdateState(c), c.desired, OK)
  {
    HeldIsLocked(c.subs, c.current, c.desired.state);
    if Locked(Marked(c.subs, c.current, c.desired.state)) { StillHeld(c); } else { PerformedChanges(c); }
  }

  lemma IgnoredStays(c: State)
    ensures UpdateState(c).h.ignored == c.h.ignored
  {
    UpdateStateEffect(c);
  }

  lemma StillHeld(c: State)
    requires c.pending && c.desired.state != c.current && Acceptable(c.subs, c.desired.state)
    requires c.subs == Marked(c.subs, c.current, c.desired.state) && Locked(Marked(c.subs, c.current, c.desired.state))
    ensures UpdateState(c) == c
  {
  }

  // ---------- defineStates ----------

  /** Main-state and substate names that defineStates refuses, spelling by spelling. */
  predicate RefusedMain(m: Name) {
    m in [INIT, INIT_LOWER, ALIVE, ALIVE_LOWER, NEUTRAL, NEUTRAL_LOWER, SHUTDOWN, SHUTDOWN_LOWER,
          FATAL_ERROR, FATAL_ERROR_LOWER, FATAL_ERROR_CAMEL, DEACTIVATED, DEACTIVATED_LOWER]
  }

  predicate RefusedSub(n: Name) {
    n in [INIT, INIT_LOWER, ALIVE, ALIVE_LOWER, NEUTRAL, NEUTRAL_LOWER, SHUTDOWN, SHUTDOWN_LOWER,
          FATAL_ERROR, FATAL_ERROR_LOWER, FATAL_ERROR_CAMEL, NONNEUTRAL_LOWER, NONNEUTRAL_CAMEL, NONNEUTRAL]
  }

  lemma RefusedNames(m: Name, n: Name)
    ensures RefusedMain(m) <==> ReservedMain(m)
    ensures RefusedSub(n) <==> ReservedSub(n)
  {
  }

  /** `n` now has `m`, and so has "nonneutral"; all else is assigned as before. */
  ghost predicate Assigned(a: seq<SubState>, b: seq<SubState>, m: Name, n: Name) {
    forall x, y :: Lists(b, x, y) <==> Lists(a, x, y) || (y == m && (x == n || x == NONNEUTRAL_LOWER))
  }

  /** defineStates is refused after activation and for these names, without any
      effect, and assigns the main state otherwise. */
  lemma DefinitionOutcome(s: State, m: Name, n: Name)
    requires Config(s.subs)
    ensures var (s', status) := DefineStates(s, m, n);
      && status == (if s.running then AlreadyActivated else if RefusedMain(m) || RefusedSub(n) then NotAllowed else OK)
      && (status != OK ==> s' == s)
      && (status == OK ==> s' == s.(subs := s'.subs) && Assigned(s.subs, s'.subs, m, n))
  {
    RefusedNames(m, n);
    DefineStatesOutcome(s, m, n);
    forall x, y ensures Lists(Defined(s.subs, m, n), x, y)
      <==> Lists(s.subs, x, y) || (y == m && (x == n || x == NONNEUTRAL_LOWER))
    {
      DefinedLists(s.subs, m, n, x, y);
    }
  }
}
