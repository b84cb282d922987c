/** What can be told before an event: when acquire is safe, when a release completes
    the pending change, and when Alive becomes the current main state. */
module StateHolds {
  import opened Names
  import opened StateModel
  import opened StateConfig
  import opened StateInvariant
  import opened StateOrder
  import opened StateSystem
  import opened StateRuns

  // ---------- acquire ----------

  /** acquire waits without counting unless no change is pending, or the pending one
      leaves the substate as it is, active. Calls that are refused do not wait. */
  predicate CountsFirst(s: State, n: Name) {
    var at := Find(s.subs, n);
    !s.running || at.None? || !s.pending || (s.subs[at.value].action == Keep && s.subs[at.value].active)
  }

  /** A caller that has nothing, holds an active substate, or waits with its count
      reserved. */
  ghost predicate NeverUnsure(sys: System, id: nat, n: Name) {
    id in sys.sessions ==>
      sys.sessions[id] == Holding(n, true)
      || (sys.sessions[id].Parked? && sys.sessions[id].sub == n && sys.sessions[id].reserved)
  }

  lemma AcquiresSafely(sys: System, id: nat, n: Name)
    requires Inv(sys.slave) && id !in sys.sessions && CountsFirst(sys.slave, n)
    ensures NeverUnsure(Next(sys, Acquires(id, n)), id, n)
  {
    var s, at := sys.slave, Find(sys.slave.subs, n);
    if s.running && at.Some? && BeginAcquireAt(s, at.value).1.Returned? {
      BumpActive(s, at.value, 1);
      BeginAcquireReturns(s, at.value);
    }
  }

  /** The guard is exact: without it, and only then, the caller parks uncounted. */
  lemma ParksUncounted(sys: System, id: nat, n: Name)
    requires Inv(sys.slave) && id !in sys.sessions
    ensures var sys' := Next(sys, Acquires(id, n));
      ((id in sys'.sessions && sys'.sessions[id] == Parked(n, false, false)) <==> !CountsFirst(sys.slave, n))
      && (!CountsFirst(sys.slave, n) ==> sys'.slave == sys.slave)
  {
    var s, at := sys.slave, Find(sys.slave.subs, n);
    if CountsFirst(s, n) {
      AcquiresSafely(sys, id, n);
    }
  }

  predicate Begins(e: Event, id: nat) {
    (e.Acquires? && e.id == id) || (e.Tries? && e.id == id)
  }

  lemma AbsentStays(sys: System, e: Event, id: nat)
    requires id !in sys.sessions && !Begins(e, id)
    ensures id !in Next(sys, e).sessions
  {
  }

  lemma ReleasedIsGone(sys: System, id: nat)
    requires id in sys.sessions && sys.sessions[id].Holding?
    ensures id !in Next(sys, Releases(id)).sessions
  {
  }

  lemma ParkedStays(sys: System, e: Event, id: nat)
    requires id in sys.sessions && sys.sessions[id].Parked?
    requires e != Wakes(id) || !sys.sessions[id].notified
    ensures id in Next(sys, e).sessions && Next(sys, e).sessions[id].Parked?
    ensures Next(sys, e).sessions[id] == sys.sessions[id].(notified := Next(sys, e).sessions[id].notified)
  {
  }

  lemma NeverUnsureStays(sys: System, e: Event, id: nat, n: Name)
    requires SysInv(sys) && NeverUnsure(sys, id, n) && !Begins(e, id)
    ensures NeverUnsure(Next(sys, e), id, n)
  {
    if id !in sys.sessions {
      AbsentStays(sys, e, id);
    } else if sys.sessions[id].Holding? {
      if e == Releases(id) { ReleasedIsGone(sys, id); } else { HoldingStays(sys, e, id); }
    } else if e == Wakes(id) && sys.sessions[id].notified {
      ParkedPromise(sys, id);
    } else {
      ParkedStays(sys, e, id);
    }
  }

  lemma {:induction false} NeverUnsureAfter(sys: System, events: seq<Event>, id: nat, n: Name)
    requires SysInv(sys) && NeverUnsure(sys, id, n)
    requires forall i :: 0 <= i < |events| ==> !Begins(events[i], id)
    ensures SysInv(After(sys, events)) && NeverUnsure(After(sys, events), id, n)
  {
    if events != [] {
      NeverUnsureAfter(sys, events[..|events| - 1], id, n);
      NextKeeps(After(sys, events[..|events| - 1]), events[|events| - 1]);
      NeverUnsureStays(After(sys, events[..|events| - 1]), events[|events| - 1], id, n);
    }
  }

  /** A caller that acquires when acquire counts first never gets OK on an inactive
      substate: whatever happens then, until it calls again it has nothing, waits
      with its count reserved, or holds the active substate. */
  lemma GuardedAcquireIsSafe(sys: System, id: nat, n: Name, events: seq<Event>)
    requires SysInv(sys) && id !in sys.sessions && CountsFirst(sys.slave, n)
    requires forall i :: 0 <= i < |events| ==> !Begins(events[i], id)
    ensures var sys' := After(Next(sys, Acquires(id, n)), events);
      NeverUnsure(sys', id, n)
      && (id in sys'.sessions && sys'.sessions[id].Holding? ==> IsActive(sys'.slave, n))
  {
    var next := Next(sys, Acquires(id, n));
    AcquiresSafely(sys, id, n);
    NextKeeps(sys, Acquires(id, n));
    NeverUnsureAfter(next, events, id, n);
    var sys' := After(next, events);
    if id in sys'.sessions && sys'.sessions[id].Holding? {
      assert Good(sys'.sessions[id], sys'.slave);
    }
  }

  /** Shutdown is the current main state or the only one to come. */
  predicate OnlyShutdown(s: State) {
    s.current == SHUTDOWN || (s.pending && s.desired.state == SHUTDOWN)
  }

  lemma ReleaseOnlyShutdown(s: State, n: Name)
    requires Inv(s) && OnlyShutdown(s) && s.current != SHUTDOWN
    ensures OnlyShutdown(Release(s, n))
  {
    if ReleaseStatus(s, n) == OK {
      LastReleaseCompletes(s, n);
      CountDownFrame(s, Find(s.subs, n).value);
      UpdateStateDesired(CountDown(s, Find(s.subs, n).value));
    }
  }

  lemma OnlyShutdownStays(s: State, op: Op)
    requires Inv(s) && OnlyShutdown(s)
    ensures OnlyShutdown(Step(s, op))
  {
    if s.current == SHUTDOWN {
      StepLifecycle(s, op);
    } else if op.OpRelease? {
      ReleaseOnlyShutdown(s, op.sub);
    } else if IsQuiet(op) {
      QuietFrame(s, op);
    }
  }

  /** A caller that has nothing, or waits uncounted and is notified by Shutdown only. */
  ghost predicate NeverGranted(sys: System, id: nat, n: Name) {
    OnlyShutdown(sys.slave)
    && (id in sys.sessions ==>
          && sys.sessions[id].Parked? && sys.sessions[id].sub == n && !sys.sessions[id].reserved
          && (sys.sessions[id].notified ==> sys.slave.current == SHUTDOWN))
  }

  lemma OthersTellNobody(sys: System, e: Event, id: nat)
    requires id in sys.sessions && sys.sessions[id].Parked? && !e.Turn? && !e.Releases? && e != Wakes(id)
    ensures id in Next(sys, e).sessions && Next(sys, e).sessions[id] == sys.sessions[id]
  {
  }

  lemma UpdateStateWakes(s: State)
    ensures var r := UpdateState(s);
      Since(s.h.woken, r.h.woken) == [] || (s.pending && r.current == Target(s.desired.state))
  {
    UpdateStateEffect(s);
    var r := UpdateState(s);
    if !Performed(s, r) {
      assert Since(s.h.woken, r.h.woken) == [];
    }
  }

  lemma ReleaseTells(sys: System, k: nat, id: nat)
    requires SysInv(sys) && k in sys.sessions && sys.sessions[k].Holding?
    requires id in sys.sessions && sys.sessions[id].Parked?
    ensures var sys' := Next(sys, Releases(k));
      id in sys'.sessions
      && (sys'.sessions[id] == sys.sessions[id]
          || (sys.slave.pending && sys'.slave.current == Target(sys.slave.desired.state)))
  {
    var i := ReleasesStep(sys, k);
    CountDownFrame(sys.slave, i);
    UpdateStateWakes(CountedDown(sys, k, i).slave);
  }

  lemma HaltedTurn(sys: System)
    requires Inv(sys.slave) && OnlyShutdown(sys.slave) && sys.slave.current != SHUTDOWN
    ensures Next(sys, Turn) == sys
  {
    AbsorbNothing(sys);
  }

  lemma ShutdownTells(sys: System, k: nat, id: nat)
    requires SysInv(sys) && sys.slave.desired.state == SHUTDOWN && id in sys.sessions && sys.sessions[id].Parked?
    ensures var sys' := Next(sys, Releases(k));
      id in sys'.sessions && (sys'.sessions[id] == sys.sessions[id] || sys'.slave.current == SHUTDOWN)
  {
    if k in sys.sessions && sys.sessions[k].Holding? {
      ReleaseTells(sys, k, id);
    }
  }

  lemma WakesOther(sys: System, k: nat, id: nat)
    requires id in sys.sessions && !(sys.sessions[id].Parked? && sys.sessions[id].notified)
    ensures var sys' := Next(sys, Wakes(k)); id in sys'.sessions && sys'.sessions[id] == sys.sessions[id]
  {
  }

  /** With Shutdown pending, callers are notified only when it is performed. */
  lemma ToldByChange(sys: System, e: Event, id: nat)
    requires SysInv(sys) && OnlyShutdown(sys.slave) && sys.slave.current != SHUTDOWN
    requires id in sys.sessions && sys.sessions[id].Parked? && !sys.sessions[id].notified
    ensures var sys' := Next(sys, e);
      id in sys'.sessions && (sys'.sessions[id] == sys.sessions[id] || sys'.slave.current == SHUTDOWN)
  {
    match e
    case Turn => HaltedTurn(sys);
    case Releases(k) => ShutdownTells(sys, k, id);
    case Wakes(k) => WakesOther(sys, k, id);
    case _ => OthersTellNobody(sys, e, id);
  }

  lemma NeverGrantedStays(sys: System, e: Event, id: nat, n: Name)
    requires SysInv(sys) && NeverGranted(sys, id, n) && !Begins(e, id)
    ensures NeverGranted(Next(sys, e), id, n)
  {
    assert CallersNeedActivation(sys);
    NextIsStep(sys, e);
    OnlyShutdownStays(sys.slave, OpOf(sys, e));
    StepLifecycle(sys.slave, OpOf(sys, e));
    if id !in sys.sessions {
      AbsentStays(sys, e, id);
    } else if e == Wakes(id) && sys.sessions[id].notified {
      RefusedInShutdown(sys, id);
    } else {
      ParkedStays(sys, e, id);
      if !sys.sessions[id].notified && sys.slave.current != SHUTDOWN {
        ToldByChange(sys, e, id);
      }
    }
  }

  lemma RefusedInShutdown(sys: System, id: nat)
    requires SysInv(sys) && id in sys.sessions && sys.sessions[id].Parked? && sys.sessions[id].notified
    requires sys.slave.current == SHUTDOWN
    ensures id !in Next(sys, Wakes(id)).sessions
  {
    assert Good(sys.sessions[id], sys.slave);
  }

  lemma {:induction false} NotGrantedInShutdown(sys: System, id: nat, n: Name, events: seq<Event>)
    requires SysInv(sys) && NeverGranted(sys, id, n)
    requires forall i :: 0 <= i < |events| ==> !Begins(events[i], id)
    ensures SysInv(After(sys, events)) && NeverGranted(After(sys, events), id, n)
  {
    if events != [] {
      NotGrantedInShutdown(sys, id, n, events[..|events| - 1]);
      NextKeeps(After(sys, events[..|events| - 1]), events[|events| - 1]);
      NeverGrantedStays(After(sys, events[..|events| - 1]), events[|events| - 1], id, n);
    }
  }

  /** An acquire that waits for a pending Shutdown never returns OK. */
  lemma ShutdownIsNotGranted(sys: System, id: nat, n: Name, events: seq<Event>)
    requires SysInv(sys) && id !in sys.sessions && !CountsFirst(sys.slave, n) && sys.slave.desired.state == SHUTDOWN
    requires forall i :: 0 <= i < |events| ==> !Begins(events[i], id)
    ensures var sys' := After(Next(sys, Acquires(id, n)), events);
      id in sys'.sessions ==> !sys'.sessions[id].Holding?
  {
    ParksUncounted(sys, id, n);
    NextKeeps(sys, Acquires(id, n));
    NotGrantedInShutdown(Next(sys, Acquires(id, n)), id, n, events);
  }

  // ---------- release ----------

  /** Nobody else stands in the way of the pending change: no other caller uses a
      substate that it leaves, and no ignored release counts there. */
  ghost predicate OnlyHolder(sys: System, id: nat)
    requires id in sys.sessions
  {
    forall i :: 0 <= i < |sys.slave.subs| && sys.slave.subs[i].action == Deactivate ==>
      Unused(sys.(sessions := sys.sessions - {id}), sys.slave.subs[i].name)
      && Count(IgnoredWith(sys.slave, sys.sessions[id].sub), sys.slave.subs[i].name) == 0
  }

  /** The ignored releases, with one of `n`. */
  function IgnoredWith(s: State, n: Name): seq<Name> {
    if IsActive(s, n) then s.h.ignored else s.h.ignored + [n]
  }

  lemma NoUsers(sessions: map<nat, Session>, n: Name)
    ensures |Users(sessions, n)| == 0 <==> forall id :: id in sessions ==> !Uses(sessions[id], n)
  {
    if forall id :: id in sessions ==> !Uses(sessions[id], n) {
      assert Users(sessions, n) == {};
    }
    forall id | id in sessions && Uses(sessions[id], n) ensures |Users(sessions, n)| > 0 {
      UserCounts(sessions, id, n);
    }
  }

  lemma InTheWay(sys: System, id: nat, mid: System, i: nat)
    requires SessionsInv(mid) && i < |mid.slave.subs| && mid.sessions == sys.sessions - {id}
    ensures mid.slave.subs[i].cnt == 0 <==>
      Unused(mid, mid.slave.subs[i].name) && Count(mid.slave.h.ignored, mid.slave.subs[i].name) == 0
  {
    assert Conserved(mid, i);
    NoUsers(mid.sessions, mid.slave.subs[i].name);
  }

  /** A release completes the pending change if and only if its caller was the last
      one in its way. */
  lemma LastUserCompletes(sys: System, id: nat)
    requires SysInv(sys) && sys.slave.pending && id in sys.sessions && sys.sessions[id].Holding?
    ensures var sys' := Next(sys, Releases(id));
      (!sys'.slave.pending <==> OnlyHolder(sys, id))
      && (!sys'.slave.pending ==> sys'.slave.current == Target(sys.slave.desired.state))
  {
    var s, n := sys.slave, sys.sessions[id].sub;
    var i := ReleasesStep(sys, id);
    var mid := CountedDown(sys, id, i);
    CountedDownSessions(sys, id, i);
    LastReleaseCompletes(s, n);
    CountDownFrame(s, i);
    SameActions(s, i);
    WayIsFree(sys, id, mid);
  }

  lemma SameActions(s: State, i: nat)
    requires i < |s.subs|
    ensures var subs := CountDown(s, i).subs;
      |subs| == |s.subs| && forall j :: 0 <= j < |subs| ==> subs[j].action == s.subs[j].action && subs[j].name == s.subs[j].name
  {
  }

  lemma WayIsFree(sys: System, id: nat, mid: System)
    requires SessionsInv(mid) && mid.sessions == sys.sessions - {id} && |mid.slave.subs| == |sys.slave.subs|
    requires id in sys.sessions && mid.slave.h.ignored == IgnoredWith(sys.slave, sys.sessions[id].sub)
    requires forall j :: 0 <= j < |mid.slave.subs| ==>
      mid.slave.subs[j].action == sys.slave.subs[j].action && mid.slave.subs[j].name == sys.slave.subs[j].name
    ensures Locked(mid.slave.subs) <==> !OnlyHolder(sys, id)
  {
    forall i | 0 <= i < |mid.slave.subs|
      ensures mid.slave.subs[i].cnt == 0 <==>
        Unused(sys.(sessions := sys.sessions - {id}), mid.slave.subs[i].name)
        && Count(mid.slave.h.ignored, mid.slave.subs[i].name) == 0
    {
      InTheWay(sys, id, mid, i);
    }
    if Locked(mid.slave.subs) {
      var i :| 0 <= i < |mid.slave.subs| && Blocks(mid.slave.subs[i]);
      assert sys.slave.subs[i].action == Deactivate;
    } else {
      forall i | 0 <= i < |mid.slave.subs| && mid.slave.subs[i].action == Deactivate ensures mid.slave.subs[i].cnt == 0 {
        assert !Blocks(mid.slave.subs[i]);
      }
    }
  }

  // ---------- Alive as a current main state ----------

  lemma AliveLocks(subs: seq<SubState>, current: Name)
    requires Config(subs)
    ensures Locked(Marked(subs, current, ALIVE)) <==> exists i :: 0 <= i < |subs| && Counted(subs[i], current)
  {
    ReservedListed(subs);
    var marked := Marked(subs, current, ALIVE);
    assert forall i :: 0 <= i < |subs| ==> (Blocks(marked[i]) <==> Counted(subs[i], current));
    if Locked(marked) {
      var i :| 0 <= i < |subs| && Blocks(marked[i]);
      assert Counted(subs[i], current);
    }
    if i :| 0 <= i < |subs| && Counted(subs[i], current) {
      assert Blocks(marked[i]);
    }
  }

  /** A substate of the main state has a count. */
  predicate Counted(sub: SubState, m: Name) { m in sub.mainstates && sub.cnt != 0 }

  ghost predicate TurnsAlive(s: State) {
    && s.dispatching && s.queue != [] && s.queue[0].state == ALIVE
    && forall i :: 0 <= i < |s.subs| ==> !Counted(s.subs[i], s.current)
  }

  lemma TurnStoresAlive(s: State)
    requires Inv(s) && s.current != ALIVE
    ensures Dispatch(s).current == ALIVE <==> TurnsAlive(s)
  {
    if s.dispatching && s.queue != [] {
      UpdateStateFrame(Dequeue(s));
      AliveLocks(s.subs, s.current);
    }
  }

  lemma ReleaseStoresAlive(sys: System, id: nat)
    requires SysInv(sys) && sys.slave.current != ALIVE && id in sys.sessions && sys.sessions[id].Holding?
    ensures Next(sys, Releases(id)).slave.current == ALIVE
      <==> sys.slave.pending && sys.slave.desired.state == ALIVE && OnlyHolder(sys, id)
  {
    var i := ReleasesStep(sys, id);
    CountDownFrame(sys.slave, i);
    UpdateStateFrame(CountDown(sys.slave, i));
    if sys.slave.pending {
      LastUserCompletes(sys, id);
      UpdateStateDesired(CountDown(sys.slave, i));
    }
  }

  /** The current main state becomes Alive if and only if the update thread takes a
      request for Alive while nobody counts on a substate of the current main state,
      or the last one in the way of such a request releases. */
  lemma AliveIsStored(sys: System, e: Event)
    requires SysInv(sys) && sys.slave.current != ALIVE
    ensures Next(sys, e).slave.current == ALIVE <==>
      || (e.Turn? && TurnsAlive(sys.slave))
      || (e.Releases? && e.id in sys.sessions && sys.sessions[e.id].Holding?
          && sys.slave.pending && sys.slave.desired.state == ALIVE && OnlyHolder(sys, e.id))
  {
    match e
    case Turn => TurnStoresAlive(sys.slave);
    case Releases(id) => if id in sys.sessions && sys.sessions[id].Holding? { ReleaseStoresAlive(sys, id); }
    case _ => OthersStoreNothing(sys, e);
  }

  lemma OthersStoreNothing(sys: System, e: Event)
    requires !e.Turn? && !e.Releases?
    ensures Next(sys, e).slave.current == sys.slave.current
  {
    if QueuesNothing(e) {
      OthersQueueNothing(sys, e);
    }
  }
}
