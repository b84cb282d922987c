/** Final states, and the order in which requests are dispatched. */
module StateOrder {
  import opened Names
  import opened StateModel
  import opened StateInvariant

  // ---------- final states ----------

  ghost predicate OneWay(p: Name, m: Name) {
    (p == SHUTDOWN ==> m == SHUTDOWN) && (p != INIT ==> m != INIT)
  }

  lemma DispatchOneWay(s: State)
    requires Inv(s)
    ensures OneWay(s.current, Dispatch(s).current)
  {
    if s.dispatching && s.queue != [] {
      assert s.queue[0].state != INIT;
      UpdateStateFrame(Dequeue(s));
    }
  }

  lemma ReleaseOneWay(s: State, n: Name)
    requires Inv(s)
    ensures OneWay(s.current, Release(s, n).current)
  {
    if ReleaseStatus(s, n) == OK {
      CountDownFrame(s, Find(s.subs, n).value);
      UpdateStateFrame(CountDown(s, Find(s.subs, n).value));
    }
  }

  /** Only dispatching and releasing change the main state. */
  lemma OthersKeepMain(s: State, op: Op)
    requires !op.OpDispatch? && !op.OpRelease?
    ensures Step(s, op).current == s.current
  {
    if IsQuiet(op) { QuietFrame(s, op); }
  }

  lemma StepLifecycle(s: State, op: Op)
    requires Inv(s)
    ensures s.current == SHUTDOWN ==> Step(s, op).current == SHUTDOWN
    ensures s.current != INIT ==> Step(s, op).current != INIT
  {
    match op
    case OpDispatch => DispatchOneWay(s);
    case OpRelease(n) => ReleaseOneWay(s, n);
    case _ => OthersKeepMain(s, op);
  }

  /** Shutdown is never left, and Init never re-entered: whatever sections follow
      a reachable state, even with spurious wake-ups. */
  lemma {:induction false} LifecycleIsOneWay(s: State, ops: seq<Op>)
    requires Inv(s)
    ensures Inv(Run(s, ops))
    ensures s.current == SHUTDOWN ==> Run(s, ops).current == SHUTDOWN
    ensures s.current != INIT ==> Run(s, ops).current != INIT
  {
    if ops != [] {
      var front := ops[..|ops| - 1];
      LifecycleIsOneWay(s, front);
      StepKeeps(Run(s, front), ops[|ops| - 1]);
      StepLifecycle(Run(s, front), ops[|ops| - 1]);
    }
  }

  // ---------- what a section does to the queue ----------

  datatype Move = Stay | AtHead(request: Request) | AtTail(request: Request) | Pop

  function MoveOf(s: State, op: Op): Move {
    match op
    case OpSetMainState(q, m) =>
      if Refusal(s, m).Some? then Stay
      else if m == SHUTDOWN then AtHead(Request(m, Some(q), None)) else AtTail(Request(m, Some(q), None))
    case OpDispatch => if s.dispatching && s.queue != [] then Pop else Stay
    case OpSetWaitState(w, m) => if WaitOutcome(s, m).Waits? then AtHead(Request(m, None, Some(w))) else Stay
    case OpEnterInitialState(w) => if s.running then AtTail(Request(s.initial, None, Some(w))) else Stay
    case _ => Stay
  }

  ghost predicate Moves(s: State, s': State, move: Move) {
    match move
    case Stay => s'.queue == s.queue && s'.h.queued == s.h.queued && s'.h.dequeued == s.h.dequeued
    case AtHead(r) => s'.queue == [r] + s.queue && s'.h.queued == s.h.queued + [r] && s'.h.dequeued == s.h.dequeued
    case AtTail(r) => s'.queue == s.queue + [r] && s'.h.queued == s.h.queued + [r] && s'.h.dequeued == s.h.dequeued
    case Pop => s.queue != [] && s'.queue == s.queue[1..] && s'.h.queued == s.h.queued && s'.h.dequeued == s.h.dequeued + [s.queue[0]]
  }

  lemma UpdateStateTraffic(s: State)
    ensures var r := UpdateState(s);
      r.queue == s.queue && r.h.queued == s.h.queued && r.h.dequeued == s.h.dequeued
  {
    if s.pending && s.desired.state != s.current && Acceptable(s.subs, s.desired.state) {
      var marked := s.(subs := Marked(s.subs, s.current, s.desired.state));
      assert Perform(marked).queue == s.queue;
    }
  }

  lemma StepMoves(s: State, op: Op)
    ensures Moves(s, Step(s, op), MoveOf(s, op))
  {
    if op.OpDispatch? && s.dispatching && s.queue != [] {
      UpdateStateTraffic(Dequeue(s));
    } else if op.OpRelease? && ReleaseStatus(s, op.sub) == OK {
      UpdateStateTraffic(CountDown(s, Find(s.subs, op.sub).value));
    } else if IsQuiet(op) {
      QuietFrame(s, op);
    }
  }

  /** In FatalError and in Shutdown only Shutdown is newly accepted; but a
      setWaitState("Alive") that is under way still asks for the initial main state.
      Requests queued earlier are not affected. */
  lemma FinalStatesAccept(s: State, op: Op)
    requires s.current == FATAL_ERROR || s.current == SHUTDOWN
    ensures match MoveOf(s, op)
      case AtHead(r) => r.state == SHUTDOWN
      case AtTail(r) => op.OpEnterInitialState? && r.state == s.initial
      case _ => true
  {
    if op.OpSetMainState? && Refusal(s, op.state).None? {
      assert op.state == SHUTDOWN;
    }
  }

  /** The lifecycle states of the component. Alive stands for every main state
      between Init and the final ones. */
  function LifecycleOf(m: Name): Name {
    if m == INIT || m == FATAL_ERROR || m == SHUTDOWN then m else ALIVE
  }

  /** The documented transitions between them. */
  predicate Transition(p: Name, m: Name) {
    || (p == INIT && (m == ALIVE || m == SHUTDOWN || m == FATAL_ERROR))
    || (p == ALIVE && (m == SHUTDOWN || m == FATAL_ERROR))
    || (p == FATAL_ERROR && m == SHUTDOWN)
  }

  /** setWaitState makes a request, at the head of the queue, for the documented
      transitions; it returns OK when the component is there already, and refuses
      everything else. */
  lemma FollowsTransitions(s: State, w: nat, m: Name)
    ensures WaitOutcome(s, m) ==
      if !s.running then Returned(NotActivated)
      else if Transition(LifecycleOf(s.current), m) then Waits(false)
      else Returned(if LifecycleOf(s.current) == m != INIT then OK else NotAllowed)
    ensures var s', r := SetWaitState(s, w, m), Request(m, None, Some(w));
      if s.running && Transition(LifecycleOf(s.current), m) then
        s' == s.(queue := [r] + s.queue, h := s.h.(queued := s.h.queued + [r])) != s
      else s' == s
  {
    if WaitOutcome(s, m).Waits? {
      assert |PushHead(s, Request(m, None, Some(w))).queue| == |s.queue| + 1;
    }
  }

  // ---------- first in, first out ----------

  /** The requests that are queued at the tail: all but those for Alive,
      FatalError and Shutdown. */
  function Ordinary(rs: seq<Request>): seq<Request> {
    if rs == [] then []
    else Ordinary(rs[..|rs| - 1]) + (if Lifecycle(rs[|rs| - 1].state) then [] else [rs[|rs| - 1]])
  }

  lemma {:induction false} OrdinaryConcat(a: seq<Request>, b: seq<Request>)
    ensures Ordinary(a + b) == Ordinary(a) + Ordinary(b)
  {
    if b == [] {
      assert a + b == a;
    } else {
      assert (a + b)[..|a + b| - 1] == a + b[..|b| - 1];
      OrdinaryConcat(a, b[..|b| - 1]);
    }
  }

  /** Ordinary requests leave the queue in the order in which they entered it. */
  ghost predicate InOrder(s: State) {
    Ordinary(s.h.queued) == Ordinary(s.h.dequeued) + Ordinary(s.queue)
  }

  lemma OrdinarySplit(rs: seq<Request>)
    requires rs != []
    ensures Ordinary(rs) == Ordinary([rs[0]]) + Ordinary(rs[1..])
  {
    assert rs == [rs[0]] + rs[1..];
    OrdinaryConcat([rs[0]], rs[1..]);
  }

  lemma PopInOrder(s: State, s': State)
    requires InOrder(s) && Moves(s, s', Pop)
    ensures InOrder(s')
  {
    OrdinarySplit(s.queue);
    OrdinaryConcat(s.h.dequeued, [s.queue[0]]);
  }

  lemma PushInOrder(s: State, s': State, r: Request, head: bool)
    requires InOrder(s) && Moves(s, s', if head then AtHead(r) else AtTail(r))
    requires head ==> Lifecycle(r.state)
    ensures InOrder(s')
  {
    OrdinaryConcat([r], s.queue);
    OrdinaryConcat(s.queue, [r]);
    OrdinaryConcat(s.h.queued, [r]);
  }

  lemma MoveInOrder(s: State, s': State, move: Move)
    requires InOrder(s) && Moves(s, s', move)
    requires move.AtHead? ==> Lifecycle(move.request.state)
    ensures InOrder(s')
  {
    match move
    case Stay =>
    case AtHead(r) => PushInOrder(s, s', r, true);
    case AtTail(r) => PushInOrder(s, s', r, false);
    case Pop => PopInOrder(s, s');
  }

  /** In every run, the ordinary requests dispatched so far followed by those
      still queued are the ordinary requests in order of arrival. */
  lemma {:induction false} AlwaysInOrder(ops: seq<Op>)
    ensures InOrder(Run(Boot(), ops))
  {
    if ops != [] {
      var s, op := Run(Boot(), ops[..|ops| - 1]), ops[|ops| - 1];
      AlwaysInOrder(ops[..|ops| - 1]);
      StepMoves(s, op);
      MoveInOrder(s, Step(s, op), MoveOf(s, op));
    }
  }

  // ---------- urgent requests ----------

  /** Since `s`, only requests that arrived after `s` were dispatched: the queue
      of `s` still lies, whole, in that of `s'`. */
  ghost predicate Untouched(s: State, s': State, before: seq<Request>, after: seq<Request>) {
    && s.h.queued <= s'.h.queued && s.h.dequeued <= s'.h.dequeued
    && s'.queue == before + s.queue + after
    && multiset(s'.h.queued[|s.h.queued|..])
       == multiset(s'.h.dequeued[|s.h.dequeued|..]) + multiset(before) + multiset(after)
  }

  lemma PushUntouched(s: State, t: State, t': State, r: Request, head: bool, before: seq<Request>, after: seq<Request>)
    requires Untouched(s, t, before, after) && Moves(t, t', if head then AtHead(r) else AtTail(r))
    ensures if head then Untouched(s, t', [r] + before, after) else Untouched(s, t', before, after + [r])
  {
    assert t'.h.queued[|s.h.queued|..] == t.h.queued[|s.h.queued|..] + [r];
  }

  lemma PopUntouched(s: State, t: State, t': State, before: seq<Request>, after: seq<Request>)
    requires Untouched(s, t, before, after) && Moves(t, t', Pop) && before != []
    ensures Untouched(s, t', before[1..], after)
  {
    assert before == [before[0]] + before[1..];
    assert t'.h.dequeued[|s.h.dequeued|..] == t.h.dequeued[|s.h.dequeued|..] + [before[0]];
  }

  lemma MoveUntouched(s: State, t: State, t': State, move: Move, before: seq<Request>, after: seq<Request>)
    returns (before': seq<Request>, after': seq<Request>)
    requires Untouched(s, t, before, after) && Moves(t, t', move)
    requires move.Pop? ==> before != []
    ensures Untouched(s, t', before', after')
  {
    before', after' := before, after;
    match move
    case Stay =>
    case AtHead(r) => before' := [r] + before; PushUntouched(s, t, t', r, true, before, after);
    case AtTail(r) => after' := after + [r]; PushUntouched(s, t, t', r, false, before, after);
    case Pop => before' := before[1..]; PopUntouched(s, t, t', before, after);
  }

  /** The requests made at the head of the queue are those for Alive, FatalError
      and Shutdown. */
  lemma UrgentAtHead(s: State, op: Op)
    requires Inv(s)
    ensures var move := MoveOf(s, op);
      && (move.AtHead? ==> Lifecycle(move.request.state))
      && (move.AtTail? ==> !Lifecycle(move.request.state))
  {
    InitialNotInit(s);
  }

  /** One more section: it leaves the queue of `s` untouched, or takes its head. */
  lemma UrgentNext(s: State, t: State, op: Op, before: seq<Request>, after: seq<Request>)
    returns (stays: bool, before': seq<Request>, after': seq<Request>)
    requires s.queue != [] && Untouched(s, t, before, after)
    ensures stays ==> Untouched(s, Step(t, op), before', after')
    ensures !stays ==> before == [] && Step(t, op).h.dequeued == t.h.dequeued + [s.queue[0]]
  {
    StepMoves(t, op);
    stays, before', after' := before != [] || !MoveOf(t, op).Pop?, before, after;
    if stays {
      before', after' := MoveUntouched(s, t, Step(t, op), MoveOf(t, op), before, after);
    }
  }

  ghost predicate HeadTaken(s: State, ops: seq<Op>, i: nat)
    requires s.queue != [] && i < |ops|
  {
    Run(s, ops[..i + 1]).h.dequeued == Run(s, ops[..i]).h.dequeued + [s.queue[0]]
  }

  /** A request at the head of the queue, as Shutdown and the lifecycle requests
      are when they are made, is dispatched before everything that was in the queue
      at that time: in any run from there, either the queue is still untouched, or
      it was until the section `i` that dispatched this very request. */
  lemma {:induction false} UrgentFirst(s: State, ops: seq<Op>)
    returns (i: nat, before: seq<Request>, after: seq<Request>)
    requires s.queue != []
    ensures i <= |ops| && Untouched(s, Run(s, ops[..i]), before, after)
    ensures i < |ops| ==> before == [] && HeadTaken(s, ops, i)
  {
    if ops == [] {
      i, before, after := 0, [], [];
    } else {
      var front, op := ops[..|ops| - 1], ops[|ops| - 1];
      i, before, after := UrgentFirst(s, front);
      assert front[..i] == ops[..i];
      if i < |front| {
        assert front[..i + 1] == ops[..i + 1];
      } else {
        assert ops[..i] == front && ops[..i + 1] == ops;
        var stays, before', after' := UrgentNext(s, Run(s, front), op, before, after);
        if stays {
          i, before, after := |ops|, before', after';
        }
      }
    }
  }
}
