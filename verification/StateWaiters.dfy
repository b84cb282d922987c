/** What a setWaitState caller has waited for when it returns. */
module StateWaiters {
  import opened Names
  import opened StateModel
  import opened StateInvariant
  import opened StateSystem
  import opened StateRuns

  // ---------- the request of a caller ----------

  function Times(queue: seq<Request>, w: nat): nat {
    if queue == [] then 0 else (if queue[0].waiter == Some(w) then 1 else 0) + Times(queue[1..], w)
  }

  /** How many requests of the caller are queued or pending. */
  function Outstanding(s: State, w: nat): nat {
    Times(s.queue, w) + (if s.pending && s.desired.waiter == Some(w) then 1 else 0)
  }

  ghost predicate AllWant(queue: seq<Request>, w: nat, m: Name) {
    forall i :: 0 <= i < |queue| && queue[i].waiter == Some(w) ==> queue[i].state == m
  }

  /** Every outstanding request of the caller is for `m`. */
  ghost predicate Wants(s: State, w: nat, m: Name) {
    AllWant(s.queue, w, m) && (s.pending && s.desired.waiter == Some(w) ==> s.desired.state == m)
  }

  predicate Expects(waiters: map<nat, Waiter>, w: nat) {
    w in waiters && waiters[w].Waiting? && !waiters[w].notified
  }

  /** A caller has at most one outstanding request, only while it waits unnotified,
      and for the state that it waits for. */
  ghost predicate Own(s: State, waiters: map<nat, Waiter>, w: nat) {
    if Expects(waiters, w) then Outstanding(s, w) <= 1 && Wants(s, w, waiters[w].wanted)
    else Outstanding(s, w) == 0
  }

  lemma {:induction false} TimesAppend(queue: seq<Request>, r: Request, w: nat)
    ensures Times(queue + [r], w) == Times(queue, w) + (if r.waiter == Some(w) then 1 else 0)
  {
    if queue != [] {
      assert (queue + [r])[1..] == queue[1..] + [r];
      TimesAppend(queue[1..], r, w);
    }
  }

  lemma TimesPush(queue: seq<Request>, r: Request, w: nat)
    ensures Times([r] + queue, w) == Times(queue, w) + (if r.waiter == Some(w) then 1 else 0)
  {
    assert ([r] + queue)[1..] == queue;
  }

  lemma {:induction false} NoneQueued(queue: seq<Request>, w: nat, m: Name)
    requires Times(queue, w) == 0
    ensures AllWant(queue, w, m)
  {
    if queue != [] {
      NoneQueued(queue[1..], w, m);
    }
  }

  lemma PushOwn(s: State, s': State, waiters: map<nat, Waiter>, r: Request, w: nat)
    requires Own(s, waiters, w) && r.waiter != Some(w)
    requires s'.queue == [r] + s.queue || s'.queue == s.queue + [r]
    requires s'.pending == s.pending && s'.desired == s.desired
    ensures Own(s', waiters, w)
  {
    TimesPush(s.queue, r, w);
    TimesAppend(s.queue, r, w);
  }

  /** A new request of a caller that has none. */
  lemma PushNew(s: State, s': State, waiters: map<nat, Waiter>, r: Request, w: nat)
    requires Outstanding(s, w) == 0 && r.waiter == Some(w) && Expects(waiters, w) && waiters[w].wanted == r.state
    requires s'.queue == [r] + s.queue || s'.queue == s.queue + [r]
    requires s'.pending == s.pending && s'.desired == s.desired
    ensures Own(s', waiters, w)
  {
    TimesPush(s.queue, r, w);
    TimesAppend(s.queue, r, w);
    NoneQueued(s.queue, w, r.state);
  }

  lemma DequeueOwn(s: State, waiters: map<nat, Waiter>, w: nat)
    requires s.queue != [] && Own(s, waiters, w)
    ensures Own(Dequeue(s), waiters, w)
  {
    assert s.queue[0].waiter == Some(w) && Expects(waiters, w) ==> s.queue[0].state == waiters[w].wanted;
  }

  // ---------- notification ----------

  /** What updateState does to requests and callers. */
  lemma UpdateStateTells(s: State)
    ensures var r := UpdateState(s); var told := Since(s.h.completed, r.h.completed);
      && r.queue == s.queue && (r.pending ==> s.pending && r.desired == s.desired)
      && (told == [] || (told == AsSeq(s.desired.waiter) && s.pending && !r.pending && r.current == Target(s.desired.state)))
  {
    UpdateStateFrame(s);
    UpdateStateEffect(s);
    var r := UpdateState(s);
    if Performed(s, r) {
      assert Since(s.h.completed, r.h.completed) == AsSeq(s.desired.waiter);
    } else {
      assert Since(s.h.completed, r.h.completed) == [];
    }
  }

  /** A caller that is told has its own request performed, and then no other. */
  ghost predicate ToldOfOwn(sys: System, sys': System, w: nat) {
    Expects(sys.waiters, w) && !Expects(sys'.waiters, w) ==> sys'.slave.current == Target(sys.waiters[w].wanted)
  }

  lemma UpdateStateOwn(sys: System, w: nat)
    requires Own(sys.slave, sys.waiters, w)
    ensures var sys' := Absorb(sys, UpdateState(sys.slave));
      Own(sys'.slave, sys'.waiters, w) && ToldOfOwn(sys, sys', w)
  {
    UpdateStateTells(sys.slave);
  }

  // ---------- all events ----------

  ghost predicate KeepsOwn(sys: System, e: Event, w: nat) {
    Own(Next(sys, e).slave, Next(sys, e).waiters, w) && ToldOfOwn(sys, Next(sys, e), w)
  }

  lemma TurnOwn(sys: System, w: nat)
    requires Own(sys.slave, sys.waiters, w)
    ensures KeepsOwn(sys, Turn, w)
  {
    var s := sys.slave;
    if s.dispatching && s.queue != [] {
      var mid := sys.(slave := Dequeue(s));
      DequeueOwn(s, sys.waiters, w);
      UpdateStateOwn(mid, w);
      AbsorbSame(sys, mid, UpdateState(mid.slave), Dispatch(s));
    } else {
      AbsorbNothing(sys);
    }
  }

  lemma ReleasesOwn(sys: System, id: nat, w: nat)
    requires SysInv(sys) && Own(sys.slave, sys.waiters, w) && id in sys.sessions && sys.sessions[id].Holding?
    ensures KeepsOwn(sys, Releases(id), w)
  {
    var i := ReleasesStep(sys, id);
    CountDownFrame(sys.slave, i);
    UpdateStateOwn(CountedDown(sys, id, i), w);
  }

  lemma MasterAsksOwn(sys: System, q: nat, m: Name, w: nat)
    requires Own(sys.slave, sys.waiters, w)
    ensures KeepsOwn(sys, MasterAsks(q, m), w)
  {
    if Refusal(sys.slave, m).None? {
      PushOwn(sys.slave, SetMainState(sys.slave, q, m), sys.waiters, Request(m, Some(q), None), w);
    }
  }

  lemma SetWaitsOwn(sys: System, v: nat, m: Name, w: nat)
    requires Own(sys.slave, sys.waiters, w) && v !in sys.waiters
    ensures KeepsOwn(sys, SetWaits(v, m), w)
  {
    var sys' := Next(sys, SetWaits(v, m));
    if WaitOutcome(sys.slave, m).Waits? {
      if v == w {
        PushNew(sys.slave, sys'.slave, sys'.waiters, Request(m, None, Some(w)), w);
      } else {
        PushOwn(sys.slave, sys'.slave, sys'.waiters, Request(m, None, Some(v)), w);
      }
    }
  }

  lemma WaiterWakesOwn(sys: System, v: nat, w: nat)
    requires Own(sys.slave, sys.waiters, w) && v in sys.waiters && sys.waiters[v].Waiting? && sys.waiters[v].notified
    ensures KeepsOwn(sys, WaiterWakes(v), w)
  {
    var sys' := Next(sys, WaiterWakes(v));
    if sys.waiters[v].asked == ALIVE && !sys.waiters[v].second {
      var r := Request(sys.slave.initial, None, Some(v));
      if v == w {
        PushNew(sys.slave, sys'.slave, sys'.waiters, r, w);
      } else {
        PushOwn(sys.slave, sys'.slave, sys'.waiters, r, w);
      }
    }
  }

  lemma OthersOwn(sys: System, e: Event, w: nat)
    requires Own(sys.slave, sys.waiters, w)
    requires QueuesNothing(e)
    ensures KeepsOwn(sys, e, w)
  {
    OthersQueueNothing(sys, e);
  }

  /** Every event keeps the caller's request its own, and notifies the caller only by
      performing that request. */
  lemma NextOwn(sys: System, e: Event, w: nat)
    requires SysInv(sys) && Own(sys.slave, sys.waiters, w)
    ensures KeepsOwn(sys, e, w)
  {
    match e
    case Turn => TurnOwn(sys, w);
    case MasterAsks(q, m) => MasterAsksOwn(sys, q, m, w);
    case Releases(id) => if id in sys.sessions && sys.sessions[id].Holding? { ReleasesOwn(sys, id, w); }
    case SetWaits(v, m) => if v !in sys.waiters { SetWaitsOwn(sys, v, m, w); }
    case WaiterWakes(v) =>
      if v in sys.waiters && sys.waiters[v].Waiting? && sys.waiters[v].notified { WaiterWakesOwn(sys, v, w); }
    case _ => OthersOwn(sys, e, w);
  }

  lemma {:induction false} AlwaysOwn(events: seq<Event>, w: nat)
    ensures Own(RunAll(events).slave, RunAll(events).waiters, w)
  {
    if events != [] {
      AlwaysOwn(events[..|events| - 1], w);
      AlwaysSysInv(events[..|events| - 1]);
      NextOwn(RunAll(events[..|events| - 1]), events[|events| - 1], w);
    }
  }

  // ---------- what a run has been through ----------

  function MainAt(events: seq<Event>, i: nat): Name
    requires i <= |events|
  {
    RunAll(events[..i]).slave.current
  }

  /** The run has been in the main state. */
  ghost predicate Visited(events: seq<Event>, m: Name) {
    exists i :: 0 <= i <= |events| && MainAt(events, i) == m
  }

  /** The run has been in `a` and later in `b`. */
  ghost predicate VisitedBoth(events: seq<Event>, a: Name, b: Name) {
    exists i, j :: 0 <= i < j <= |events| && MainAt(events, i) == a && MainAt(events, j) == b
  }

  lemma SameMain(events: seq<Event>, e: Event, i: nat)
    requires i <= |events|
    ensures MainAt(events + [e], i) == MainAt(events, i)
  {
    assert (events + [e])[..i] == events[..i];
  }

  lemma VisitedLater(events: seq<Event>, e: Event, m: Name)
    requires Visited(events, m)
    ensures Visited(events + [e], m)
    ensures VisitedBoth(events + [e], m, RunAll(events + [e]).slave.current)
  {
    var i :| 0 <= i <= |events| && MainAt(events, i) == m;
    SameMain(events, e, i);
    assert (events + [e])[..|events| + 1] == events + [e];
    assert MainAt(events + [e], |events| + 1) == RunAll(events + [e]).slave.current;
  }

  lemma VisitedBothLater(events: seq<Event>, e: Event, a: Name, b: Name)
    requires VisitedBoth(events, a, b)
    ensures VisitedBoth(events + [e], a, b)
  {
    var i, j :| 0 <= i < j <= |events| && MainAt(events, i) == a && MainAt(events, j) == b;
    SameMain(events, e, i);
    SameMain(events, e, j);
  }

  lemma VisitedNow(events: seq<Event>)
    ensures Visited(events, RunAll(events).slave.current)
  {
    assert events[..|events|] == events;
    assert MainAt(events, |events|) == RunAll(events).slave.current;
  }

  /** What a caller that waits has behind it. */
  ghost predicate Behind(events: seq<Event>, x: Waiter) {
    x.Waiting? ==>
      && Lifecycle(x.asked) && !IsDeactivation(x.wanted)
      && (if x.second then x.asked == ALIVE && Visited(events, ALIVE) else x.wanted == x.asked)
      && (x.notified ==> if x.second then VisitedBoth(events, ALIVE, x.wanted) else Visited(events, x.wanted))
  }

  lemma InitialIsPlain(s: State)
    requires Inv(s)
    ensures !IsDeactivation(s.initial)
  {
    assert s.initial in s.subs[4].mainstates ==> !ReservedMain(s.initial);
  }

  lemma BehindLater(events: seq<Event>, e: Event, x: Waiter)
    requires Behind(events, x)
    ensures Behind(events + [e], x)
  {
    if x.Waiting? {
      if Visited(events, ALIVE) { VisitedLater(events, e, ALIVE); }
      if Visited(events, x.wanted) { VisitedLater(events, e, x.wanted); }
      if VisitedBoth(events, ALIVE, x.wanted) { VisitedBothLater(events, e, ALIVE, x.wanted); }
    }
  }

  /** How an event changes one caller. */
  lemma WaiterMoves(sys: System, e: Event, w: nat)
    requires SysInv(sys) && w in Next(sys, e).waiters
    ensures var x' := Next(sys, e).waiters[w];
      || (w in sys.waiters && x' == sys.waiters[w])
      || (w in sys.waiters && sys.waiters[w].Waiting? && !sys.waiters[w].notified && x' == sys.waiters[w].(notified := true))
      || (w !in sys.waiters && x'.Waiting? && Lifecycle(x'.asked) && x' == Waiting(x'.asked, x'.asked, false, false))
      || (w in sys.waiters && sys.waiters[w].Waiting? && sys.waiters[w].notified && sys.waiters[w].asked == ALIVE
          && !sys.waiters[w].second && x' == Waiting(ALIVE, sys.slave.initial, true, false))
      || x'.Finished?
  {
  }

  lemma NextBehind(events: seq<Event>, e: Event, w: nat)
    requires SysInv(RunAll(events)) && Own(RunAll(events).slave, RunAll(events).waiters, w)
    requires w in RunAll(events).waiters ==> Behind(events, RunAll(events).waiters[w])
    requires RunAll(events + [e]) == Next(RunAll(events), e)
    ensures w in RunAll(events + [e]).waiters ==> Behind(events + [e], RunAll(events + [e]).waiters[w])
  {
    var sys, sys' := RunAll(events), Next(RunAll(events), e);
    if w in sys'.waiters {
      WaiterMoves(sys, e, w);
      NextOwn(sys, e, w);
      VisitedNow(events + [e]);
      InitialIsPlain(sys.slave);
      if w in sys.waiters {
        BehindLater(events, e, sys.waiters[w]);
        if Visited(events, ALIVE) { VisitedLater(events, e, ALIVE); }
      }
    }
  }

  lemma {:induction false} AlwaysBehind(events: seq<Event>, w: nat)
    ensures w in RunAll(events).waiters ==> Behind(events, RunAll(events).waiters[w])
  {
    if events != [] {
      var front, e := events[..|events| - 1], events[|events| - 1];
      AlwaysBehind(front, w);
      AlwaysOwn(front, w);
      AlwaysSysInv(front);
      assert front + [e] == events;
      NextBehind(front, e, w);
    }
  }

  /** When a setWaitState that had to wait returns, its own request was performed:
      the component has been in the state that was asked for, and after Alive also,
      later, in the initial main state. It need not be there any more. */
  lemma WaitedForOwn(events: seq<Event>, w: nat)
    requires w in RunAll(events).waiters && RunAll(events).waiters[w].Waiting?
    requires Next(RunAll(events), WaiterWakes(w)).waiters[w].Finished?
    ensures var x := RunAll(events).waiters[w];
      if x.asked == ALIVE then VisitedBoth(events, ALIVE, x.wanted) else Visited(events, x.asked)
  {
    AlwaysBehind(events, w);
  }
}
