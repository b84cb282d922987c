/** The state slave together with its callers: threads that acquire and release
    substates, wait in acquire or in setWaitState, and are woken by notification
    only. Callers release what they hold and nothing else. */
module StateSystem {
  import opened Names
  import opened StateModel
  import opened StateConfig
  import opened StateInvariant

  /** One acquire call and what it holds. A caller parks either before counting
      (a change was pending) or with its count already reserved (the substate was
      inactive). `sure` records that the substate was active when the call returned. */
  datatype Session =
    | Parked(sub: Name, reserved: bool, notified: bool)
    | Holding(sub: Name, sure: bool)

  /** One setWaitState call: its first wait, its second (only for Alive), or over.
      `wanted` is the main state that it waits for, the initial one in the second. */
  datatype Waiter =
    | Waiting(asked: Name, wanted: Name, second: bool, notified: bool)
    | Finished(asked: Name)

  datatype System = System(slave: State, sessions: map<nat, Session>, waiters: map<nat, Waiter>)

  datatype Event =
    | MasterAsks(query: nat, state: Name)
    | Turn
    | Acquires(id: nat, sub: Name)
    | Wakes(id: nat)
    | Tries(id: nat, sub: Name)
    | Releases(id: nat)
    | SetWaits(waiter: nat, state: Name)
    | WaiterWakes(waiter: nat)
    | Defines(state: Name, sub: Name)
    | SetsInitial(state: Name)
    | Activates

  function Start(): System { System(Boot(), map[], map[]) }

  // ---------- steps ----------

  function Told(session: Session, woken: seq<Name>): Session {
    if session.Parked? && session.sub in woken then session.(notified := true) else session
  }

  function ToldWaiter(waiter: Waiter, isTold: bool): Waiter {
    if waiter.Waiting? && isTold then waiter.(notified := true) else waiter
  }

  function Tell(sessions: map<nat, Session>, woken: seq<Name>): (r: map<nat, Session>)
    ensures r.Keys == sessions.Keys && forall id :: id in r ==> r[id] == Told(sessions[id], woken)
  {
    map id | id in sessions :: Told(sessions[id], woken)
  }

  function TellWaiters(waiters: map<nat, Waiter>, completed: seq<nat>): (r: map<nat, Waiter>)
    ensures r.Keys == waiters.Keys && forall w :: w in r ==> r[w] == ToldWaiter(waiters[w], w in completed)
  {
    map w | w in waiters :: ToldWaiter(waiters[w], w in completed)
  }

  function Since<T>(before: seq<T>, after: seq<T>): seq<T> {
    if |before| <= |after| then after[|before|..] else []
  }

  /** The slave moves from `sys.slave` to `s`, and the callers hear of it. */
  function Absorb(sys: System, s: State): System {
    System(s, Tell(sys.sessions, Since(sys.slave.h.woken, s.h.woken)),
           TellWaiters(sys.waiters, Since(sys.slave.h.completed, s.h.completed)))
  }

  predicate IsActive(s: State, n: Name) {
    var at := Find(s.subs, n); at.Some? && s.subs[at.value].active
  }

  function Settled(sys: System, id: nat, n: Name, r: (State, Status)): System {
    sys.(slave := r.0,
         sessions := if r.1 == OK then sys.sessions[id := Holding(n, IsActive(r.0, n))] else sys.sessions - {id})
  }

  function Next(sys: System, a: Event): System {
    match a
    case MasterAsks(q, m) => sys.(slave := SetMainState(sys.slave, q, m))
    case Turn => Absorb(sys, Dispatch(sys.slave))
    case Acquires(id, n) =>
      if id in sys.sessions then sys
      else
        var (s, outcome) := BeginAcquire(sys.slave, n);
        (match outcome
         case Returned(status) => Settled(sys, id, n, (s, status))
         case Waits(reserved) => sys.(slave := s, sessions := sys.sessions[id := Parked(n, reserved, false)]))
    case Wakes(id) =>
      if id in sys.sessions && sys.sessions[id].Parked? && sys.sessions[id].notified then
        Settled(sys, id, sys.sessions[id].sub, ResumeAcquire(sys.slave, sys.sessions[id].sub, sys.sessions[id].reserved))
      else sys
    case Tries(id, n) =>
      if id in sys.sessions then sys else Settled(sys, id, n, TryAcquire(sys.slave, n))
    case Releases(id) =>
      if id in sys.sessions && sys.sessions[id].Holding? then
        Absorb(sys.(sessions := sys.sessions - {id}), Release(sys.slave, sys.sessions[id].sub))
      else sys
    case SetWaits(w, m) =>
      if w in sys.waiters then sys
      else sys.(slave := SetWaitState(sys.slave, w, m),
                waiters := sys.waiters[w := if WaitOutcome(sys.slave, m).Waits? then Waiting(m, m, false, false)
                                            else Finished(m)])
    case WaiterWakes(w) =>
      if w in sys.waiters && sys.waiters[w].Waiting? && sys.waiters[w].notified then
        if sys.waiters[w].asked == ALIVE && !sys.waiters[w].second then
          sys.(slave := EnterInitialState(sys.slave, w),
               waiters := sys.waiters[w := Waiting(ALIVE, sys.slave.initial, true, false)])
        else sys.(waiters := sys.waiters[w := Finished(sys.waiters[w].asked)])
      else sys
    case Defines(m, n) => sys.(slave := DefineStates(sys.slave, m, n).0)
    case SetsInitial(m) => sys.(slave := SetUpInitialState(sys.slave, m).0)
    case Activates => sys.(slave := sys.slave.(running := true))
  }

  function After(sys: System, events: seq<Event>): System {
    if events == [] then sys else Next(After(sys, events[..|events| - 1]), events[|events| - 1])
  }

  function RunAll(events: seq<Event>): System { After(Start(), events) }

  // ---------- counting ----------

  predicate Uses(session: Session, n: Name) {
    session.sub == n && (session.Holding? || session.reserved)
  }

  ghost function Users(sessions: map<nat, Session>, n: Name): set<nat> {
    set id | id in sessions && Uses(sessions[id], n)
  }

  /** A substate's counter is the number of its holders, plus the callers parked
      with a reserved count, plus the releases that came when it was inactive. */
  ghost predicate Conserved(sys: System, i: nat)
    requires i < |sys.slave.subs|
  {
    var sub := sys.slave.subs[i];
    sub.cnt == |Users(sys.sessions, sub.name)| + Count(sys.slave.h.ignored, sub.name)
  }

  lemma UsersAdd(sessions: map<nat, Session>, id: nat, x: Session, n: Name)
    requires id !in sessions
    ensures |Users(sessions[id := x], n)| == |Users(sessions, n)| + (if Uses(x, n) then 1 else 0)
  {
    if Uses(x, n) {
      assert Users(sessions[id := x], n) == Users(sessions, n) + {id};
    } else {
      assert Users(sessions[id := x], n) == Users(sessions, n);
    }
  }

  lemma UsersRemove(sessions: map<nat, Session>, id: nat, n: Name)
    requires id in sessions
    ensures |Users(sessions - {id}, n)| == |Users(sessions, n)| - (if Uses(sessions[id], n) then 1 else 0)
  {
    if Uses(sessions[id], n) {
      assert Users(sessions, n) == Users(sessions - {id}, n) + {id};
    } else {
      assert Users(sessions - {id}, n) == Users(sessions, n);
    }
  }

  lemma UsersTell(sessions: map<nat, Session>, woken: seq<Name>, n: Name)
    ensures Users(Tell(sessions, woken), n) == Users(sessions, n)
  {
  }

  lemma UserCounts(sessions: map<nat, Session>, id: nat, n: Name)
    requires id in sessions && Uses(sessions[id], n)
    ensures |Users(sessions, n)| >= 1
  {
    assert id in Users(sessions, n);
  }

  // ---------- what a session may rely on ----------

  /** A caller that holds for sure, or was woken with a reserved count, finds its
      substate active (or the component shut down); a caller that is still parked
      with a reserved count has missed no activation of its substate. */
  ghost predicate GoodAt(x: Session, sub: SubState, current: Name) {
    match x
    case Holding(_, sure) => sure ==> sub.active
    case Parked(_, reserved, notified) =>
      && (reserved && notified ==> sub.active || current == SHUTDOWN)
      && (reserved && !notified ==> !sub.active)
      && (!notified ==> current != SHUTDOWN)
  }

  ghost predicate Good(x: Session, s: State) {
    var at := Find(s.subs, x.sub);
    at.Some? && GoodAt(x, s.subs[at.value], s.current)
  }

  lemma {:induction false} NoticesFrom(subs: seq<SubState>, target: Name, n: Name)
    ensures n in Notices(subs, target) ==>
      exists i :: 0 <= i < |subs| && subs[i].name == n && (subs[i].active || target == SHUTDOWN)
  {
    if subs != [] {
      NoticesFrom(subs[..|subs| - 1], target, n);
    }
  }

  lemma {:induction false} NoticesTo(subs: seq<SubState>, target: Name, i: nat)
    requires i < |subs| && (subs[i].active || target == SHUTDOWN)
    ensures subs[i].name in Notices(subs, target)
  {
    if i < |subs| - 1 { NoticesTo(subs[..|subs| - 1], target, i); }
  }

  lemma NoticesExact(subs: seq<SubState>, target: Name, i: nat)
    requires UniqueNames(subs) && i < |subs|
    ensures subs[i].name in Notices(subs, target) <==> subs[i].active || target == SHUTDOWN
  {
    if subs[i].name in Notices(subs, target) {
      NoticesFrom(subs, target, subs[i].name);
      var j :| 0 <= j < |subs| && subs[j].name == subs[i].name && (subs[j].active || target == SHUTDOWN);
      assert !(i < j) && !(j < i);
    }
    if subs[i].active || target == SHUTDOWN { NoticesTo(subs, target, i); }
  }

  lemma FindSame(a: seq<SubState>, b: seq<SubState>, n: Name)
    requires UniqueNames(a) && SameConfig(a, b)
    ensures Find(a, n) == Find(b, n)
  {
    var at := Find(a, n);
    if at.Some? {
      assert UniqueNames(b) && b[at.value].name == n;
      FindAt(b, at.value);
    }
  }

  /** Performing a change keeps what a session relies on: its substate is not left
      while it is counted, and it is told when its substate becomes active. */
  lemma PerformGood(subs: seq<SubState>, current: Name, desired: Name, x: Session, i: nat)
    requires i < |subs| && UniqueNames(subs) && x.sub == subs[i].name
    requires GoodAt(x, subs[i], current) && (Uses(x, subs[i].name) ==> subs[i].cnt >= 1)
    requires current != SHUTDOWN && !Locked(Marked(subs, current, desired))
    ensures var r := Switched(Marked(subs, current, desired));
      GoodAt(Told(x, Notices(r, Target(desired))), r[i], Target(desired))
  {
    var marked := Marked(subs, current, desired);
    var r := Switched(marked);
    assert UniqueNames(r);
    NoticesExact(r, Target(desired), i);
    assert !Blocks(marked[i]);
  }

  lemma UpdateStateGood(s: State, x: Session)
    requires Core(s) && Good(x, s)
    requires Uses(x, x.sub) ==> s.subs[Find(s.subs, x.sub).value].cnt >= 1
    ensures Good(Told(x, Since(s.h.woken, UpdateState(s).h.woken)), UpdateState(s))
  {
    var r := UpdateState(s);
    UpdateStateEffect(s);
    if Performed(s, r) {
      assert Since(s.h.woken, r.h.woken) == Notices(r.subs, r.current);
      PerformedGood(s, r, x);
    } else {
      assert Since(s.h.woken, r.h.woken) == [];
      MarkedGood(s, r.subs, x);
    }
  }

  lemma MarkedGood(s: State, subs: seq<SubState>, x: Session)
    requires UniqueNames(s.subs) && Good(x, s)
    requires subs == s.subs || subs == Marked(s.subs, s.current, s.desired.state)
    ensures Find(subs, x.sub).Some? && GoodAt(x, subs[Find(subs, x.sub).value], s.current)
  {
    MarkedSame(s.subs, s.current, s.desired.state);
    FindSame(s.subs, subs, x.sub);
  }

  lemma PerformedGood(s: State, r: State, x: Session)
    requires Core(s) && Good(x, s) && Performed(s, r)
    requires Uses(x, x.sub) ==> s.subs[Find(s.subs, x.sub).value].cnt >= 1
    ensures Good(Told(x, Notices(r.subs, r.current)), r)
  {
    var marked := Marked(s.subs, s.current, s.desired.state);
    MarkedSame(s.subs, s.current, s.desired.state);
    SwitchedSame(marked);
    FindSame(s.subs, r.subs, x.sub);
    PerformGood(s.subs, s.current, s.desired.state, x, Find(s.subs, x.sub).value);
  }

  ghost predicate SessionsInv(sys: System) {
    && (forall id :: id in sys.sessions ==> sys.slave.running && Good(sys.sessions[id], sys.slave))
    && (forall i :: 0 <= i < |sys.slave.subs| ==> Conserved(sys, i))
    && (!sys.slave.running ==> sys.slave.h.ignored == [])
  }

  lemma HeldCounts(sys: System, id: nat)
    requires SessionsInv(sys) && id in sys.sessions && Uses(sys.sessions[id], sys.sessions[id].sub)
    ensures sys.slave.subs[Find(sys.slave.subs, sys.sessions[id].sub).value].cnt >= 1
  {
    var i := Find(sys.slave.subs, sys.sessions[id].sub).value;
    assert Conserved(sys, i);
    UserCounts(sys.sessions, id, sys.sessions[id].sub);
  }

  lemma UpdateStateReliance(sys: System)
    requires Core(sys.slave) && SessionsInv(sys)
    ensures var sys' := Absorb(sys, UpdateState(sys.slave));
      forall id :: id in sys'.sessions ==> sys'.slave.running && Good(sys'.sessions[id], sys'.slave)
  {
    var s, r := sys.slave, UpdateState(sys.slave);
    var sys' := Absorb(sys, r);
    UpdateStateFrame(s);
    forall id | id in sys'.sessions ensures r.running && Good(sys'.sessions[id], r) {
      if Uses(sys.sessions[id], sys.sessions[id].sub) { HeldCounts(sys, id); }
      UpdateStateGood(s, sys.sessions[id]);
    }
  }

  lemma UpdateStateConserved(sys: System)
    requires SessionsInv(sys)
    ensures var sys' := Absorb(sys, UpdateState(sys.slave));
      forall i :: 0 <= i < |sys'.slave.subs| ==> Conserved(sys', i)
  {
    var s, r := sys.slave, UpdateState(sys.slave);
    var sys' := Absorb(sys, r);
    UpdateStateEffect(s);
    assert |r.subs| == |s.subs| && forall i :: 0 <= i < |s.subs| ==> r.subs[i].name == s.subs[i].name && r.subs[i].cnt == s.subs[i].cnt;
    forall i | 0 <= i < |r.subs| ensures Conserved(sys', i) {
      assert Conserved(sys, i);
      UsersTell(sys.sessions, Since(s.h.woken, r.h.woken), s.subs[i].name);
    }
  }

  /** updateState keeps what the sessions rely on, and the counts. */
  lemma UpdateStateSessions(sys: System)
    requires Core(sys.slave) && SessionsInv(sys)
    ensures SessionsInv(Absorb(sys, UpdateState(sys.slave)))
  {
    UpdateStateReliance(sys);
    UpdateStateConserved(sys);
    UpdateStateEffect(sys.slave);
    UpdateStateFrame(sys.slave);
  }

  lemma SessionsFrame(sys: System, sys': System)
    requires SessionsInv(sys) && sys'.sessions == sys.sessions
    requires sys'.slave.subs == sys.slave.subs && sys'.slave.current == sys.slave.current
    requires sys'.slave.h.ignored == sys.slave.h.ignored && (sys.slave.running ==> sys'.slave.running)
    ensures SessionsInv(sys')
  {
    forall id | id in sys'.sessions ensures sys'.slave.running && Good(sys'.sessions[id], sys'.slave) {
      assert Good(sys.sessions[id], sys.slave);
    }
    forall i | 0 <= i < |sys'.slave.subs| ensures Conserved(sys', i) { assert Conserved(sys, i); }
  }

  lemma AbsorbSame(sys: System, mid: System, r: State, s: State)
    requires mid.sessions == sys.sessions && mid.waiters == sys.waiters
    requires mid.slave.h.woken == sys.slave.h.woken && mid.slave.h.completed == sys.slave.h.completed
    requires s.h == r.h
    ensures Absorb(sys, s) == Absorb(mid, r).(slave := s)
  {
  }

  lemma AbsorbNothing(sys: System)
    ensures Absorb(sys, sys.slave) == sys
  {
    assert Tell(sys.sessions, []) == sys.sessions;
    assert TellWaiters(sys.waiters, []) == sys.waiters;
  }

  lemma TurnSessions(sys: System)
    requires Inv(sys.slave) && SessionsInv(sys)
    ensures SessionsInv(Next(sys, Turn))
  {
    var s := sys.slave;
    if s.dispatching && s.queue != [] {
      var mid := sys.(slave := Dequeue(s));
      DequeueKeepsCore(s);
      SessionsFrame(sys, mid);
      UpdateStateSessions(mid);
      AbsorbSame(sys, mid, UpdateState(mid.slave), Dispatch(s));
      SessionsFrame(Absorb(mid, UpdateState(mid.slave)), Next(sys, Turn));
    } else {
      AbsorbNothing(sys);
    }
  }

  // ---------- one session changes ----------

  /** A substate other than the one counted keeps its balance; the counted one
      keeps it if the session's use changes as the counter does. */
  lemma RecountAdd(sys: System, sys': System, i: nat, id: nat, x: Session, d: int)
    requires SessionsInv(sys) && UniqueNames(sys.slave.subs) && i < |sys.slave.subs| && id !in sys.sessions
    requires sys.slave.running && sys'.slave.running
    requires sys'.slave.subs == Bump(sys.slave, i, d).subs && sys'.slave.current == sys.slave.current
    requires sys'.slave.h.ignored == sys.slave.h.ignored
    requires sys'.sessions == sys.sessions[id := x] && x.sub == sys.slave.subs[i].name
    requires d == if Uses(x, x.sub) then 1 else 0
    requires GoodAt(x, sys'.slave.subs[i], sys.slave.current)
    ensures SessionsInv(sys')
  {
    var a, b := sys.slave.subs, sys'.slave.subs;
    assert SameConfig(a, b) && UniqueNames(b);
    forall k | k in sys'.sessions ensures Good(sys'.sessions[k], sys'.slave) {
      if k == id {
        FindAt(b, i);
      } else {
        assert Good(sys.sessions[k], sys.slave);
        FindSame(a, b, sys.sessions[k].sub);
      }
    }
    forall j | 0 <= j < |b| ensures Conserved(sys', j) {
      assert Conserved(sys, j);
      UsersAdd(sys.sessions, id, x, a[j].name);
      assert j != i ==> a[j].name != x.sub;
    }
  }

  lemma RecountRemove(sys: System, sys': System, i: nat, id: nat, d: int)
    requires SessionsInv(sys) && UniqueNames(sys.slave.subs) && i < |sys.slave.subs| && id in sys.sessions
    requires sys'.slave.running && sys'.slave.subs == Bump(sys.slave, i, d).subs && sys'.slave.current == sys.slave.current
    requires sys'.slave.h.ignored == sys.slave.h.ignored
    requires sys'.sessions == sys.sessions - {id} && sys.sessions[id].sub == sys.slave.subs[i].name
    requires d == if Uses(sys.sessions[id], sys.sessions[id].sub) then -1 else 0
    ensures SessionsInv(sys')
  {
    var a, b := sys.slave.subs, sys'.slave.subs;
    assert SameConfig(a, b) && UniqueNames(b);
    forall k | k in sys'.sessions ensures Good(sys'.sessions[k], sys'.slave) {
      assert Good(sys.sessions[k], sys.slave);
      FindSame(a, b, sys.sessions[k].sub);
    }
    forall j | 0 <= j < |b| ensures Conserved(sys', j) {
      assert Conserved(sys, j);
      UsersRemove(sys.sessions, id, a[j].name);
      assert j != i ==> a[j].name != sys.sessions[id].sub;
    }
  }

  lemma BumpTwice(s: State, i: nat, d: int, e: int)
    requires i < |s.subs|
    ensures Bump(Bump(s, i, d), i, e) == Bump(s, i, d + e) && Bump(s, i, 0) == s
  {
    assert s.subs[i := s.subs[i]] == s.subs;
  }

  lemma BumpActive(s: State, i: nat, d: int)
    requires i < |s.subs| && UniqueNames(s.subs)
    ensures IsActive(Bump(s, i, d), s.subs[i].name) == s.subs[i].active
  {
    FindAt(Bump(s, i, d).subs, i);
  }

  /** A call that returns OK at once, counting up an active substate. */
  lemma GrantedSessions(sys: System, id: nat, i: nat)
    requires Inv(sys.slave) && SessionsInv(sys) && sys.slave.running && id !in sys.sessions
    requires i < |sys.slave.subs| && sys.slave.subs[i].active
    ensures SessionsInv(Settled(sys, id, sys.slave.subs[i].name, (Bump(sys.slave, i, 1), OK)))
  {
    var n := sys.slave.subs[i].name;
    BumpActive(sys.slave, i, 1);
    RecountAdd(sys, Settled(sys, id, n, (Bump(sys.slave, i, 1), OK)), i, id, Holding(n, true), 1);
  }

  lemma RefusedSessions(sys: System, id: nat, n: Name, status: Status)
    requires SessionsInv(sys) && id !in sys.sessions && status != OK
    ensures SessionsInv(Settled(sys, id, n, (sys.slave, status)))
  {
    SessionsFrame(sys, Settled(sys, id, n, (sys.slave, status)));
  }

  lemma ParksSessions(sys: System, id: nat, i: nat)
    requires Inv(sys.slave) && SessionsInv(sys) && sys.slave.running && id !in sys.sessions
    requires i < |sys.slave.subs|
    requires BeginAcquireAt(sys.slave, i).1.Waits?
    ensures var (s, outcome) := BeginAcquireAt(sys.slave, i);
      SessionsInv(sys.(slave := s, sessions := sys.sessions[id := Parked(s.subs[i].name, outcome.reserved, false)]))
  {
    var (s, outcome) := BeginAcquireAt(sys.slave, i);
    var x := Parked(s.subs[i].name, outcome.reserved, false);
    BumpTwice(sys.slave, i, 0, 0);
    RecountAdd(sys, sys.(slave := s, sessions := sys.sessions[id := x]), i, id, x, if outcome.reserved then 1 else 0);
  }

  lemma BeginAcquireReturns(s: State, i: nat)
    requires i < |s.subs| && BeginAcquireAt(s, i).1.Returned? && (s.current == SHUTDOWN ==> !s.pending)
    ensures var r := BeginAcquireAt(s, i);
      if s.subs[i].active then r == (Bump(s, i, 1), Returned(OK)) else r == (s, Returned(NotActivated))
  {
    BumpTwice(s, i, 1, -1);
  }

  lemma AcquiresSessions(sys: System, id: nat, n: Name)
    requires Inv(sys.slave) && SessionsInv(sys) && id !in sys.sessions
    ensures SessionsInv(Next(sys, Acquires(id, n)))
  {
    var s, at := sys.slave, Find(sys.slave.subs, n);
    if !s.running {
      RefusedSessions(sys, id, n, NotActivated);
    } else if at.None? {
      RefusedSessions(sys, id, n, UnknownState);
    } else if BeginAcquireAt(s, at.value).1.Waits? {
      ParksSessions(sys, id, at.value);
    } else {
      BeginAcquireReturns(s, at.value);
      if s.subs[at.value].active { GrantedSessions(sys, id, at.value); } else { RefusedSessions(sys, id, n, NotActivated); }
    }
  }

  lemma TriesSessions(sys: System, id: nat, n: Name)
    requires Inv(sys.slave) && SessionsInv(sys) && id !in sys.sessions
    ensures SessionsInv(Next(sys, Tries(id, n)))
  {
    var r := TryAcquire(sys.slave, n);
    if r.1 == OK { GrantedSessions(sys, id, Find(sys.slave.subs, n).value); } else { RefusedSessions(sys, id, n, r.1); }
  }

  lemma UnparkSessions(sys: System, id: nat, i: nat)
    requires Inv(sys.slave) && SessionsInv(sys) && i < |sys.slave.subs|
    requires id in sys.sessions && sys.sessions[id].Parked? && sys.sessions[id].sub == sys.slave.subs[i].name
    ensures SessionsInv(sys.(slave := Bump(sys.slave, i, if sys.sessions[id].reserved then -1 else 0),
                             sessions := sys.sessions - {id}))
  {
    var d := if sys.sessions[id].reserved then -1 else 0;
    RecountRemove(sys, sys.(slave := Bump(sys.slave, i, d), sessions := sys.sessions - {id}), i, id, d);
  }

  lemma Replaced(sessions: map<nat, Session>, id: nat, x: Session)
    requires id in sessions
    ensures (sessions - {id})[id := x] == sessions[id := x]
  {
  }

  lemma FinishAcquireBumps(s: State, i: nat, reserved: bool)
    requires i < |s.subs| && s.current != SHUTDOWN
    ensures FinishAcquire(s, i, reserved) == (Bump(Bump(s, i, if reserved then -1 else 0), i, 1), OK)
  {
    BumpTwice(s, i, if reserved then -1 else 0, 1);
  }

  lemma WakesInShutdown(sys: System, id: nat)
    requires Inv(sys.slave) && SessionsInv(sys) && sys.slave.current == SHUTDOWN
    requires id in sys.sessions && sys.sessions[id].Parked? && sys.sessions[id].notified
    ensures SessionsInv(Next(sys, Wakes(id)))
  {
    var s, x := sys.slave, sys.sessions[id];
    assert Good(x, s);
    var i := Find(s.subs, x.sub).value;
    UnparkSessions(sys, id, i);
    BumpTwice(s, i, 0, 0);
  }

  /** The system without session `id` and its reserved count. */
  function Unparked(sys: System, id: nat, i: nat): System
    requires id in sys.sessions && sys.sessions[id].Parked? && i < |sys.slave.subs|
  {
    sys.(slave := Bump(sys.slave, i, if sys.sessions[id].reserved then -1 else 0), sessions := sys.sessions - {id})
  }

  lemma GrantedIs(sys: System, id: nat, i: nat)
    requires UniqueNames(sys.slave.subs) && sys.slave.current != SHUTDOWN
    requires id in sys.sessions && sys.sessions[id].Parked? && sys.sessions[id].notified
    requires Find(sys.slave.subs, sys.sessions[id].sub) == Some(i) && i < |sys.slave.subs|
    ensures var mid := Unparked(sys, id, i);
      Next(sys, Wakes(id)) == mid.(slave := Bump(mid.slave, i, 1),
        sessions := mid.sessions[id := Holding(mid.slave.subs[i].name, mid.slave.subs[i].active)])
  {
    var s, x, mid := sys.slave, sys.sessions[id], Unparked(sys, id, i);
    FinishAcquireBumps(s, i, x.reserved);
    assert UniqueNames(mid.slave.subs);
    BumpActive(mid.slave, i, 1);
    Replaced(sys.sessions, id, Holding(x.sub, s.subs[i].active));
  }

  lemma WakesGranted(sys: System, id: nat)
    requires Inv(sys.slave) && SessionsInv(sys) && sys.slave.current != SHUTDOWN
    requires id in sys.sessions && sys.sessions[id].Parked? && sys.sessions[id].notified
    ensures SessionsInv(Next(sys, Wakes(id)))
  {
    assert Good(sys.sessions[id], sys.slave);
    var i := Find(sys.slave.subs, sys.sessions[id].sub).value;
    UnparkSessions(sys, id, i);
    RegrantedSessions(Unparked(sys, id, i), id, i);
    GrantedIs(sys, id, i);
  }

  lemma WakesSessions(sys: System, id: nat)
    requires Inv(sys.slave) && SessionsInv(sys)
    requires id in sys.sessions && sys.sessions[id].Parked? && sys.sessions[id].notified
    ensures SessionsInv(Next(sys, Wakes(id)))
  {
    if sys.slave.current == SHUTDOWN { WakesInShutdown(sys, id); } else { WakesGranted(sys, id); }
  }

  lemma RegrantedSessions(sys: System, id: nat, i: nat)
    requires UniqueNames(sys.slave.subs) && SessionsInv(sys) && sys.slave.running && id !in sys.sessions
    requires i < |sys.slave.subs|
    ensures SessionsInv(sys.(slave := Bump(sys.slave, i, 1),
                             sessions := sys.sessions[id := Holding(sys.slave.subs[i].name, sys.slave.subs[i].active)]))
  {
    var x := Holding(sys.slave.subs[i].name, sys.slave.subs[i].active);
    RecountAdd(sys, sys.(slave := Bump(sys.slave, i, 1), sessions := sys.sessions[id := x]), i, id, x, 1);
  }

  lemma IgnoredRemove(sys: System, sys': System, i: nat, id: nat)
    requires SessionsInv(sys) && UniqueNames(sys.slave.subs) && i < |sys.slave.subs|
    requires id in sys.sessions && sys.sessions[id].Holding? && sys.sessions[id].sub == sys.slave.subs[i].name
    requires sys'.sessions == sys.sessions - {id}
    requires sys'.slave == sys.slave.(h := sys.slave.h.(ignored := sys.slave.h.ignored + [sys.slave.subs[i].name]))
    ensures SessionsInv(sys')
  {
    var subs, ignored := sys.slave.subs, sys'.slave.h.ignored;
    assert ignored[..|ignored| - 1] == sys.slave.h.ignored;
    forall k | k in sys'.sessions ensures Good(sys'.sessions[k], sys'.slave) { assert Good(sys.sessions[k], sys.slave); }
    forall j | 0 <= j < |subs| ensures Conserved(sys', j) {
      assert Conserved(sys, j);
      UsersRemove(sys.sessions, id, subs[j].name);
    }
  }

  /** The system after session `id` was counted down and before the slave looks
      for a pending change. */
  function CountedDown(sys: System, id: nat, i: nat): System
    requires i < |sys.slave.subs|
  {
    sys.(slave := CountDown(sys.slave, i), sessions := sys.sessions - {id})
  }

  lemma ReleasesStep(sys: System, id: nat) returns (i: nat)
    requires id in sys.sessions && sys.sessions[id].Holding? && sys.slave.running && Good(sys.sessions[id], sys.slave)
    ensures i < |sys.slave.subs| && sys.slave.subs[i].name == sys.sessions[id].sub
    ensures Find(sys.slave.subs, sys.sessions[id].sub) == Some(i)
    ensures var mid := CountedDown(sys, id, i); Next(sys, Releases(id)) == Absorb(mid, UpdateState(mid.slave))
  {
    i := Find(sys.slave.subs, sys.sessions[id].sub).value;
  }

  lemma CountedDownSessions(sys: System, id: nat, i: nat)
    requires Inv(sys.slave) && SessionsInv(sys) && id in sys.sessions && sys.sessions[id].Holding?
    requires i < |sys.slave.subs| && sys.slave.subs[i].name == sys.sessions[id].sub
    requires Find(sys.slave.subs, sys.sessions[id].sub) == Some(i)
    ensures SessionsInv(CountedDown(sys, id, i))
  {
    HeldCounts(sys, id);
    if sys.slave.subs[i].active {
      RecountRemove(sys, CountedDown(sys, id, i), i, id, -1);
    } else {
      IgnoredRemove(sys, CountedDown(sys, id, i), i, id);
    }
  }

  lemma ReleasesSessions(sys: System, id: nat)
    requires Inv(sys.slave) && SessionsInv(sys) && id in sys.sessions && sys.sessions[id].Holding?
    ensures SessionsInv(Next(sys, Releases(id)))
  {
    var i := ReleasesStep(sys, id);
    CountedDownSessions(sys, id, i);
    CountDownKeepsCore(sys.slave, i);
    UpdateStateSessions(CountedDown(sys, id, i));
  }

  lemma DefinesSessions(sys: System, m: Name, n: Name)
    requires Inv(sys.slave) && SessionsInv(sys)
    ensures SessionsInv(Next(sys, Defines(m, n)))
  {
    DefineStatesOutcome(sys.slave, m, n);
    var sys' := Next(sys, Defines(m, n));
    if !sys.slave.running && sys'.slave != sys.slave {
      DefinedSubs(sys.slave.subs, m, n);
      forall i | 0 <= i < |sys'.slave.subs| ensures Conserved(sys', i) {
        assert Users(sys.sessions, sys'.slave.subs[i].name) == {};
      }
    }
  }

  lemma NextSessions(sys: System, e: Event)
    requires Inv(sys.slave) && SessionsInv(sys)
    ensures SessionsInv(Next(sys, e))
  {
    match e
    case Turn => TurnSessions(sys);
    case Acquires(id, n) => if id !in sys.sessions { AcquiresSessions(sys, id, n); }
    case Tries(id, n) => if id !in sys.sessions { TriesSessions(sys, id, n); }
    case Wakes(id) =>
      if id in sys.sessions && sys.sessions[id].Parked? && sys.sessions[id].notified { WakesSessions(sys, id); }
    case Releases(id) => if id in sys.sessions && sys.sessions[id].Holding? { ReleasesSessions(sys, id); }
    case Defines(m, n) => DefinesSessions(sys, m, n);
    case _ => OthersSessions(sys, e);
  }

  lemma OthersSessions(sys: System, e: Event)
    requires SessionsInv(sys)
    requires e.MasterAsks? || e.SetWaits? || e.WaiterWakes? || e.SetsInitial? || e.Activates?
    ensures SessionsInv(Next(sys, e))
  {
    var sys' := Next(sys, e);
    assert sys'.sessions == sys.sessions && sys'.slave.subs == sys.slave.subs;
    assert sys'.slave.current == sys.slave.current && sys'.slave.h.ignored == sys.slave.h.ignored;
    SessionsFrame(sys, sys');
  }

  // ---------- events that leave the queue alone ----------

  ghost predicate SameRequests(s: State, s': State) {
    && s'.queue == s.queue && s'.pending == s.pending && s'.desired == s.desired && s'.current == s.current
    && (s.running ==> s'.running)
  }

  lemma AcquiresQueuesNothing(sys: System, id: nat, n: Name)
    ensures SameRequests(sys.slave, Next(sys, Acquires(id, n)).slave) && Next(sys, Acquires(id, n)).waiters == sys.waiters
  {
  }

  lemma TriesQueuesNothing(sys: System, id: nat, n: Name)
    ensures SameRequests(sys.slave, Next(sys, Tries(id, n)).slave) && Next(sys, Tries(id, n)).waiters == sys.waiters
  {
  }

  lemma WakesQueuesNothing(sys: System, id: nat)
    ensures SameRequests(sys.slave, Next(sys, Wakes(id)).slave) && Next(sys, Wakes(id)).waiters == sys.waiters
  {
  }

  lemma DefinesQueuesNothing(sys: System, m: Name, n: Name)
    ensures SameRequests(sys.slave, Next(sys, Defines(m, n)).slave) && Next(sys, Defines(m, n)).waiters == sys.waiters
  {
    QuietFrame(sys.slave, OpDefineStates(m, n));
  }

  predicate QueuesNothing(e: Event) {
    e.Acquires? || e.Wakes? || e.Tries? || e.Defines? || e.SetsInitial? || e.Activates?
  }

  lemma OthersQueueNothing(sys: System, e: Event)
    requires QueuesNothing(e)
    ensures SameRequests(sys.slave, Next(sys, e).slave) && Next(sys, e).waiters == sys.waiters
  {
    match e
    case Acquires(id, n) => AcquiresQueuesNothing(sys, id, n);
    case Tries(id, n) => TriesQueuesNothing(sys, id, n);
    case Wakes(id) => WakesQueuesNothing(sys, id);
    case Defines(m, n) => DefinesQueuesNothing(sys, m, n);
    case SetsInitial(_) =>
    case Activates =>
  }
}
