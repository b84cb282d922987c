/** The component state machine on values: one function per mutex-protected
    section of the state slave. The class StateSlave refines these functions; the
    other State modules prove properties of their runs. */
module StateModel {
  import opened Names

  datatype Status = OK | NotActivated | NotAllowed | Cancelled | UnknownState | AlreadyActivated | Error

  datatype Action = Activate | Deactivate | Keep

  datatype SubState = SubState(name: Name, mainstates: seq<Name>, cnt: int, action: Action, active: bool)

  /** A state-change request. `query` is the master's query to be answered (the
      source's server proxy and query id); `waiter` identifies the condition
      variable on which a setWaitState caller waits. */
  datatype Request = Request(state: Name, query: Option<nat>, waiter: Option<nat>)

  datatype Asking = Asking(query: nat, state: Name)

  datatype Reply = Reply(query: nat, status: Status)

  datatype Call = Quit(sub: Name) | Enter(sub: Name)

  /** What a run has done so far: the masters' set-state queries and the answers
      to them, the requests overwritten while pending, the traffic of the queue,
      the handler calls, the substates whose waiting callers were notified, the
      setWaitState callers that were notified, and the releases that did not
      count down because their substate was inactive. */
  datatype History = History(
    asked: seq<Asking>,
    answers: seq<Reply>,
    superseded: seq<nat>,
    queued: seq<Request>,
    dequeued: seq<Request>,
    calls: seq<Call>,
    woken: seq<Name>,
    completed: seq<nat>,
    ignored: seq<Name>)

  /** `pending` is desiredState.action == SSA_CHANGE_STATE and `dispatching` is
      the update thread's is_running flag. */
  datatype State = State(
    running: bool,
    dispatching: bool,
    queue: seq<Request>,
    pending: bool,
    desired: Request,
    current: Name,
    initial: Name,
    subs: seq<SubState>,
    h: History)

  function InitialSubStates(): seq<SubState> {
    [ SubState(INIT_LOWER, [INIT], 0, Keep, true),
      SubState(NEUTRAL_LOWER, [NEUTRAL], 0, Keep, false),
      SubState(FATAL_ERROR_CAMEL, [FATAL_ERROR], 0, Keep, false),
      SubState(SHUTDOWN_LOWER, [SHUTDOWN], 0, Keep, false),
      SubState(NONNEUTRAL_LOWER, [], 0, Keep, false) ]
  }

  function Boot(): State {
    State(false, true, [], false, Request(INIT, None, None), INIT, NEUTRAL, InitialSubStates(),
          History([], [], [], [], [], [], [], [], []))
  }

  function AsSeq<T>(x: Option<T>): (r: seq<T>)
    ensures |r| <= 1
  {
    match x case Some(v) => [v] case None => []
  }

  // ---------- changing the main state ----------

  predicate IsDeactivation(m: Name) { m == DEACTIVATED || m == DEACTIVATED_LOWER }

  /** The main state that a completed request leads to. */
  function Target(m: Name): Name { if IsDeactivation(m) then NEUTRAL else m }

  predicate Listed(subs: seq<SubState>, m: Name) {
    exists i :: 0 <= i < |subs| && m in subs[i].mainstates
  }

  predicate Acceptable(subs: seq<SubState>, m: Name) {
    Listed(subs, m) || IsDeactivation(m) || m == ALIVE
  }

  function ActionFor(sub: SubState, current: Name, desired: Name): Action {
    if current in sub.mainstates && desired !in sub.mainstates then Deactivate
    else if current !in sub.mainstates && desired in sub.mainstates then Activate
    else Keep
  }

  function Mark(sub: SubState, current: Name, desired: Name): SubState {
    sub.(action := ActionFor(sub, current, desired))
  }

  function Marked(subs: seq<SubState>, current: Name, desired: Name): (r: seq<SubState>)
    ensures |r| == |subs| && forall i :: 0 <= i < |r| ==> r[i] == Mark(subs[i], current, desired)
  {
    seq(|subs|, i requires 0 <= i < |subs| => Mark(subs[i], current, desired))
  }

  predicate Blocks(sub: SubState) { sub.action == Deactivate && sub.cnt != 0 }

  predicate Locked(subs: seq<SubState>) {
    exists i :: 0 <= i < |subs| && Blocks(subs[i])
  }

  function Switch(sub: SubState): SubState {
    match sub.action
    case Activate => sub.(active := true)
    case Deactivate => sub.(active := false)
    case Keep => sub
  }

  function Switched(subs: seq<SubState>): (r: seq<SubState>)
    ensures |r| == |subs| && forall i :: 0 <= i < |r| ==> r[i] == Switch(subs[i])
  {
    seq(|subs|, i requires 0 <= i < |subs| => Switch(subs[i]))
  }

  predicate IsAffected(sub: SubState, action: Action, special: bool) {
    sub.action == action && (sub.name == NONNEUTRAL_LOWER) == special
  }

  /** The substates with the given action, in list order: only "nonneutral"
      when `special`, all the others when not. */
  function Affected(subs: seq<SubState>, action: Action, special: bool): seq<Name> {
    if subs == [] then []
    else
      Affected(subs[..|subs| - 1], action, special)
      + (if IsAffected(subs[|subs| - 1], action, special) then [subs[|subs| - 1].name] else [])
  }

  function Quits(names: seq<Name>): (r: seq<Call>)
    ensures |r| == |names| && forall i :: 0 <= i < |r| ==> r[i] == Quit(names[i])
  {
    seq(|names|, i requires 0 <= i < |names| => Quit(names[i]))
  }

  function Enters(names: seq<Name>): (r: seq<Call>)
    ensures |r| == |names| && forall i :: 0 <= i < |r| ==> r[i] == Enter(names[i])
  {
    seq(|names|, i requires 0 <= i < |names| => Enter(names[i]))
  }

  /** Handler calls of one change: "nonneutral" is the last to quit and the
      first to be entered. */
  function HandlerCalls(subs: seq<SubState>): seq<Call> {
    Quits(Affected(subs, Deactivate, false) + Affected(subs, Deactivate, true))
    + Enters(Affected(subs, Activate, true) + Affected(subs, Activate, false))
  }

  /** Every active substate wakes the callers waiting for it; Shutdown wakes all. */
  function Notices(subs: seq<SubState>, target: Name): seq<Name> {
    if subs == [] then []
    else
      Notices(subs[..|subs| - 1], target)
      + (if subs[|subs| - 1].active || target == SHUTDOWN then [subs[|subs| - 1].name] else [])
  }

  function Answer(h: History, query: Option<nat>, status: Status): History {
    match query
    case Some(q) => h.(answers := h.answers + [Reply(q, status)])
    case None => h
  }

  /** Drop the pending request, answering the master that made it, if any. */
  function Settle(s: State, status: Status): State {
    s.(pending := false, desired := s.desired.(query := None), h := Answer(s.h, s.desired.query, status))
  }

  /** Perform the change whose actions are marked in `s.subs`. */
  function Perform(s: State): State {
    var target := Target(s.desired.state);
    var subs := Switched(s.subs);
    s.(current := target, desired := s.desired.(state := target), subs := subs,
       h := s.h.(calls := s.h.calls + HandlerCalls(s.subs),
                 woken := s.h.woken + Notices(subs, target),
                 completed := s.h.completed + AsSeq(s.desired.waiter)))
  }

  function UpdateState(s: State): State {
    if !s.pending then Settle(s, Error)
    else if s.desired.state == s.current then Settle(s, OK)
    else if !Acceptable(s.subs, s.desired.state) then Settle(s, UnknownState)
    else
      var marked := s.(subs := Marked(s.subs, s.current, s.desired.state));
      if Locked(marked.subs) then marked else Settle(Perform(marked), OK)
  }

  /** Replace the desired state by the head of the queue. */
  function Dequeue(s: State): State
    requires s.queue != []
  {
    s.(queue := s.queue[1..], pending := true, desired := s.queue[0],
       h := s.h.(superseded := s.h.superseded + AsSeq(s.desired.query),
                 dequeued := s.h.dequeued + [s.queue[0]]))
  }

  /** One turn of the update thread. */
  function Dispatch(s: State): State {
    if !s.dispatching || s.queue == [] then s
    else
      var r := UpdateState(Dequeue(s));
      if s.queue[0].state == SHUTDOWN then r.(dispatching := false) else r
  }

  // ---------- requests ----------

  function PushHead(s: State, r: Request): State {
    s.(queue := [r] + s.queue, h := s.h.(queued := s.h.queued + [r]))
  }

  function PushTail(s: State, r: Request): State {
    s.(queue := s.queue + [r], h := s.h.(queued := s.h.queued + [r]))
  }

  /** Names that a master may not command. */
  predicate InternalOnly(m: Name) {
    || m == INIT || m == INIT_LOWER || m == ALIVE || m == ALIVE_LOWER
    || m == FATAL_ERROR || m == FATAL_ERROR_LOWER || m == FATAL_ERROR_CAMEL
  }

  /** The status with which a master's request is refused at once, if it is. */
  function Refusal(s: State, m: Name): Option<Status> {
    if !s.running then Some(NotActivated)
    else if InternalOnly(m) then Some(NotAllowed)
    else if m == SHUTDOWN then None
    else if s.current == INIT then Some(NotActivated)
    else if s.current == SHUTDOWN || s.current == FATAL_ERROR then Some(Cancelled)
    else None
  }

  function SetMainState(s: State, query: nat, m: Name): State {
    var asked := s.(h := s.h.(asked := s.h.asked + [Asking(query, m)]));
    match Refusal(s, m)
    case Some(status) => asked.(h := Answer(asked.h, Some(query), status))
    case None =>
      var r := Request(m, Some(query), None);
      if m == SHUTDOWN then PushHead(asked, r) else PushTail(asked, r)
  }

  /** How a section that may block ends. */
  datatype Outcome = Returned(status: Status) | Waits(reserved: bool)

  predicate Lifecycle(m: Name) { m == ALIVE || m == FATAL_ERROR || m == SHUTDOWN }

  /** setWaitState up to its first wait. */
  function WaitOutcome(s: State, m: Name): Outcome {
    if !s.running then Returned(NotActivated)
    else if !Lifecycle(m) then Returned(NotAllowed)
    else if s.current == INIT then Waits(false)
    else if s.current == SHUTDOWN then Returned(if m == SHUTDOWN then OK else NotAllowed)
    else if s.current == FATAL_ERROR then
      if m == SHUTDOWN then Waits(false) else if m == FATAL_ERROR then Returned(OK) else Returned(NotAllowed)
    else if m == ALIVE then Returned(OK)
    else Waits(false)
  }

  function SetWaitState(s: State, waiter: nat, m: Name): State {
    if WaitOutcome(s, m).Waits? then PushHead(s, Request(m, None, Some(waiter))) else s
  }

  /** The section of setWaitState("Alive") between its two waits. */
  function EnterInitialState(s: State, waiter: nat): State {
    PushTail(s, Request(s.initial, None, Some(waiter)))
  }

  // ---------- substates ----------

  function Find(subs: seq<SubState>, name: Name): (r: Option<nat>)
    ensures r.Some? ==> r.value < |subs| && subs[r.value].name == name
    ensures r.None? ==> forall i :: 0 <= i < |subs| ==> subs[i].name != name
  {
    if subs == [] then None
    else if subs[|subs| - 1].name == name then Some(|subs| - 1)
    else Find(subs[..|subs| - 1], name)
  }

  function Bump(s: State, i: nat, d: int): State
    requires i < |s.subs|
  {
    s.(subs := s.subs[i := s.subs[i].(cnt := s.subs[i].cnt + d)])
  }

  /** acquire after its wait, or when it need not wait. */
  function FinishAcquire(s: State, i: nat, reserved: bool): (State, Status)
    requires i < |s.subs|
  {
    if s.current == SHUTDOWN then (if reserved then Bump(s, i, -1) else s, NotActivated)
    else (if reserved then s else Bump(s, i, 1), OK)
  }

  function Return(r: (State, Status)): (State, Outcome) { (r.0, Returned(r.1)) }

  function BeginAcquireAt(s: State, i: nat): (State, Outcome)
    requires i < |s.subs|
  {
    if s.pending then
      if s.subs[i].action != Keep || !s.subs[i].active then (s, Waits(false))
      else Return(FinishAcquire(s, i, false))
    else if s.subs[i].active then (Bump(s, i, 1), Returned(OK))
    else if s.current != SHUTDOWN then (Bump(s, i, 1), Waits(true))
    else Return(FinishAcquire(Bump(s, i, 1), i, true))
  }

  function BeginAcquire(s: State, name: Name): (State, Outcome) {
    if !s.running then (s, Returned(NotActivated))
    else
      match Find(s.subs, name)
      case None => (s, Returned(UnknownState))
      case Some(i) => BeginAcquireAt(s, i)
  }

  function ResumeAcquire(s: State, name: Name, reserved: bool): (State, Status) {
    match Find(s.subs, name)
    case None => (s, UnknownState)
    case Some(i) => FinishAcquire(s, i, reserved)
  }

  function TryAcquire(s: State, name: Name): (State, Status) {
    if !s.running then (s, NotActivated)
    else
      match Find(s.subs, name)
      case None => (s, UnknownState)
      case Some(i) =>
        if s.subs[i].active && (s.pending ==> s.subs[i].action == Keep) then (Bump(s, i, 1), OK)
        else (s, NotActivated)
  }

  function ReleaseStatus(s: State, name: Name): Status {
    if !s.running then NotActivated else if Find(s.subs, name).None? then UnknownState else OK
  }

  /** release before it looks for a pending change. */
  function CountDown(s: State, i: nat): State
    requires i < |s.subs|
  {
    if !s.subs[i].active then s.(h := s.h.(ignored := s.h.ignored + [s.subs[i].name]))
    else if s.subs[i].cnt > 0 then Bump(s, i, -1)
    else s
  }

  function Release(s: State, name: Name): State {
    if ReleaseStatus(s, name) != OK then s else UpdateState(CountDown(s, Find(s.subs, name).value))
  }

  // ---------- configuration ----------

  /** Main-state names that defineStates refuses. */
  predicate ReservedMain(m: Name) { m <= FATAL_ERROR_CAMEL }

  /** Substate names that defineStates refuses. */
  predicate ReservedSub(n: Name) { n <= NONNEUTRAL && !IsDeactivation(n) }

  function Count(names: seq<Name>, n: Name): nat {
    if names == [] then 0
    else Count(names[..|names| - 1], n) + (if names[|names| - 1] == n then 1 else 0)
  }

  function Occurrences(subs: seq<SubState>, name: Name): nat {
    if subs == [] then 0
    else Occurrences(subs[..|subs| - 1], name) + (if subs[|subs| - 1].name == name then 1 else 0)
  }

  /** Add a main state to a substate's list unless it is there; a repeated
      entry is an error. */
  function AddMain(sub: SubState, m: Name): (SubState, Status) {
    if Count(sub.mainstates, m) == 0 then (sub.(mainstates := sub.mainstates + [m]), OK)
    else if Count(sub.mainstates, m) == 1 then (sub, OK)
    else (sub, Error)
  }

  /** Add main state `m` to the substate `name`, which must occur once. */
  function Assign(subs: seq<SubState>, name: Name, m: Name): (seq<SubState>, Status) {
    match Find(subs, name)
    case None => (subs, Error)
    case Some(i) =>
      if Occurrences(subs, name) != 1 then (subs, Error)
      else var (sub, status) := AddMain(subs[i], m); (subs[i := sub], status)
  }

  function DefineStates(s: State, m: Name, n: Name): (State, Status) {
    if s.running then (s, AlreadyActivated)
    else if ReservedMain(m) || ReservedSub(n) then (s, NotAllowed)
    else
      var (subs, status) := Assign(s.subs, NONNEUTRAL_LOWER, m);
      if status != OK then (s.(subs := subs), status)
      else if Find(subs, n).None? then (s.(subs := subs + [SubState(n, [m], 0, Keep, false)]), OK)
      else var (subs', status') := Assign(subs, n, m); (s.(subs := subs'), status')
  }

  function SetUpInitialState(s: State, m: Name): (State, Status) {
    if m == NEUTRAL then (s.(initial := m), OK)
    else
      match Find(s.subs, NONNEUTRAL_LOWER)
      case None => (s, Error)
      case Some(i) =>
        if Occurrences(s.subs, NONNEUTRAL_LOWER) == 1 && m in s.subs[i].mainstates then (s.(initial := m), OK)
        else (s, Error)
  }

  // ---------- runs ----------

  /** The mutex-protected sections, in any order and from any caller. Resume
      operations may come at any time, so spurious wake-ups are included. */
  datatype Op =
    | OpSetMainState(query: nat, state: Name)
    | OpDispatch
    | OpAcquire(sub: Name)
    | OpResumeAcquire(sub: Name, reserved: bool)
    | OpTryAcquire(sub: Name)
    | OpRelease(sub: Name)
    | OpSetWaitState(waiter: nat, state: Name)
    | OpEnterInitialState(waiter: nat)
    | OpDefineStates(state: Name, sub: Name)
    | OpSetUpInitialState(state: Name)
    | OpActivate

  /** A resumed section belongs to a caller that waited, hence to a slave that
      was activated. */
  function Step(s: State, op: Op): State {
    match op
    case OpSetMainState(q, m) => SetMainState(s, q, m)
    case OpDispatch => Dispatch(s)
    case OpAcquire(n) => BeginAcquire(s, n).0
    case OpResumeAcquire(n, reserved) => if s.running then ResumeAcquire(s, n, reserved).0 else s
    case OpTryAcquire(n) => TryAcquire(s, n).0
    case OpRelease(n) => Release(s, n)
    case OpSetWaitState(w, m) => SetWaitState(s, w, m)
    case OpEnterInitialState(w) => if s.running then EnterInitialState(s, w) else s
    case OpDefineStates(m, n) => DefineStates(s, m, n).0
    case OpSetUpInitialState(m) => SetUpInitialState(s, m).0
    case OpActivate => s.(running := true)
  }

  function Run(s: State, ops: seq<Op>): State {
    if ops == [] then s else Step(Run(s, ops[..|ops| - 1]), ops[|ops| - 1])
  }
}
