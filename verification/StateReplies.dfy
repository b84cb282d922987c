/** Masters are answered at most once, and truthfully. */
module StateReplies {
  import opened Names
  import opened StateModel
  import opened StateConfig
  import opened StateInvariant

  // ---------- accounting ----------

  function TimesAsked(asked: seq<Asking>, q: nat): nat {
    if asked == [] then 0
    else TimesAsked(asked[..|asked| - 1], q) + (if asked[|asked| - 1].query == q then 1 else 0)
  }

  function TimesAnswered(answers: seq<Reply>, q: nat): nat {
    if answers == [] then 0
    else TimesAnswered(answers[..|answers| - 1], q) + (if answers[|answers| - 1].query == q then 1 else 0)
  }

  function TimesQueued(queue: seq<Request>, q: nat): nat {
    if queue == [] then 0
    else (if queue[0].query == Some(q) then 1 else 0) + TimesQueued(queue[1..], q)
  }

  function TimesPending(pending: Option<nat>, q: nat): nat { if pending == Some(q) then 1 else 0 }

  function TimesSuperseded(superseded: seq<nat>, q: nat): nat {
    if superseded == [] then 0
    else TimesSuperseded(superseded[..|superseded| - 1], q) + (if superseded[|superseded| - 1] == q then 1 else 0)
  }

  ghost predicate Balanced(asked: seq<Asking>, answers: seq<Reply>, queue: seq<Request>, pending: Option<nat>,
                           superseded: seq<nat>, q: nat)
  {
    TimesAsked(asked, q)
    == TimesAnswered(answers, q) + TimesQueued(queue, q) + TimesPending(pending, q) + TimesSuperseded(superseded, q)
  }

  /** A query is answered, queued, pending or superseded, as often in all as it
      was made: a query made once is in exactly one of these places. */
  ghost predicate Accounted(s: State, q: nat) {
    Balanced(s.h.asked, s.h.answers, s.queue, s.desired.query, s.h.superseded, q)
  }

  // ---------- what one element changes ----------

  lemma {:induction false} TimesQueuedAppend(queue: seq<Request>, r: Request, q: nat)
    ensures TimesQueued(queue + [r], q) == TimesQueued(queue, q) + TimesPending(r.query, q)
  {
    if queue != [] {
      assert (queue + [r])[1..] == queue[1..] + [r];
      TimesQueuedAppend(queue[1..], r, q);
    }
  }

  lemma TimesQueuedPush(queue: seq<Request>, r: Request, q: nat)
    ensures TimesQueued([r] + queue, q) == TimesQueued(queue, q) + TimesPending(r.query, q)
  {
    assert ([r] + queue)[1..] == queue;
  }

  function Replies(query: Option<nat>, status: Status): seq<Reply> {
    match query case Some(q) => [Reply(q, status)] case None => []
  }

  lemma RepliesCounted(answers: seq<Reply>, query: Option<nat>, status: Status, q: nat)
    ensures TimesAnswered(answers + Replies(query, status), q) == TimesAnswered(answers, q) + TimesPending(query, q)
  {
    if query.Some? {
      assert (answers + [Reply(query.value, status)])[..|answers|] == answers;
    } else {
      assert answers + [] == answers;
    }
  }

  lemma SupersededCounted(superseded: seq<nat>, query: Option<nat>, q: nat)
    ensures TimesSuperseded(superseded + AsSeq(query), q) == TimesSuperseded(superseded, q) + TimesPending(query, q)
  {
    if query.Some? {
      assert (superseded + [query.value])[..|superseded|] == superseded;
    } else {
      assert superseded + [] == superseded;
    }
  }

  lemma AskedCounted(asked: seq<Asking>, a: Asking, q: nat)
    ensures TimesAsked(asked + [a], q) == TimesAsked(asked, q) + TimesPending(Some(a.query), q)
  {
    assert (asked + [a])[..|asked|] == asked;
  }

  // ---------- what the sections change ----------

  lemma AnswerReplies(h: History, query: Option<nat>, status: Status)
    ensures Answer(h, query, status) == h.(answers := h.answers + Replies(query, status))
  {
    assert h.answers + [] == h.answers;
  }

  /** updateState leaves the pending request, or settles it with its answer. */
  lemma UpdateStateAnswers(s: State) returns (settled: Option<Status>)
    ensures var r := UpdateState(s);
      && r.queue == s.queue && r.h.asked == s.h.asked && r.h.superseded == s.h.superseded
      && r.desired.query == (if settled.Some? then None else s.desired.query)
      && r.h.answers == s.h.answers + (if settled.Some? then Replies(s.desired.query, settled.value) else [])
  {
    if !s.pending {
      settled := Some(Error);
    } else if s.desired.state == s.current {
      settled := Some(OK);
    } else if !Acceptable(s.subs, s.desired.state) {
      settled := Some(UnknownState);
    } else {
      settled := if Locked(Marked(s.subs, s.current, s.desired.state)) then None else Some(OK);
    }
    if settled.Some? {
      AnswerReplies(s.h, s.desired.query, settled.value);
      AnswerReplies(Perform(s.(subs := Marked(s.subs, s.current, s.desired.state))).h, s.desired.query, settled.value);
    }
  }

  lemma UpdateStateAccounted(s: State, q: nat)
    requires Accounted(s, q)
    ensures Accounted(UpdateState(s), q)
  {
    var settled := UpdateStateAnswers(s);
    if settled.Some? {
      RepliesCounted(s.h.answers, s.desired.query, settled.value, q);
    } else {
      assert s.h.answers + [] == s.h.answers;
    }
  }

  lemma DequeueFields(s: State)
    requires s.queue != []
    ensures var d := Dequeue(s);
      && d.h.superseded == s.h.superseded + AsSeq(s.desired.query)
      && d.queue == s.queue[1..] && d.desired.query == s.queue[0].query
      && d.h.asked == s.h.asked && d.h.answers == s.h.answers
  {
  }

  lemma DequeuedBalanced(asked: seq<Asking>, answers: seq<Reply>, queue: seq<Request>, pending: Option<nat>,
                         superseded: seq<nat>, q: nat)
    requires queue != [] && Balanced(asked, answers, queue, pending, superseded, q)
    ensures Balanced(asked, answers, queue[1..], queue[0].query, superseded + AsSeq(pending), q)
  {
    SupersededCounted(superseded, pending, q);
  }

  lemma DequeueAccounted(s: State, q: nat)
    requires s.queue != [] && Accounted(s, q)
    ensures Accounted(Dequeue(s), q)
  {
    DequeueFields(s);
    DequeuedBalanced(s.h.asked, s.h.answers, s.queue, s.desired.query, s.h.superseded, q);
  }

  lemma RefusedAccounted(s: State, query: nat, m: Name, q: nat)
    requires Refusal(s, m).Some? && Accounted(s, q)
    ensures Accounted(SetMainState(s, query, m), q)
  {
    var r, status := SetMainState(s, query, m), Refusal(s, m).value;
    assert r.h.answers == s.h.answers + Replies(Some(query), status) && r.h.asked == s.h.asked + [Asking(query, m)];
    assert r.queue == s.queue && r.desired == s.desired && r.h.superseded == s.h.superseded;
    AskedCounted(s.h.asked, Asking(query, m), q);
    RepliesCounted(s.h.answers, Some(query), status, q);
  }

  lemma AcceptedAccounted(s: State, query: nat, m: Name, q: nat)
    requires Refusal(s, m).None? && Accounted(s, q)
    ensures Accounted(SetMainState(s, query, m), q)
  {
    var r, request := SetMainState(s, query, m), Request(m, Some(query), None);
    assert r.queue == (if m == SHUTDOWN then [request] + s.queue else s.queue + [request]);
    assert r.h.asked == s.h.asked + [Asking(query, m)] && r.h.answers == s.h.answers;
    assert r.desired == s.desired && r.h.superseded == s.h.superseded;
    AskedCounted(s.h.asked, Asking(query, m), q);
    TimesQueuedPush(s.queue, request, q);
    TimesQueuedAppend(s.queue, request, q);
  }

  lemma SetMainStateAccounted(s: State, query: nat, m: Name, q: nat)
    requires Accounted(s, q)
    ensures Accounted(SetMainState(s, query, m), q)
  {
    if Refusal(s, m).Some? {
      RefusedAccounted(s, query, m, q);
    } else {
      AcceptedAccounted(s, query, m, q);
    }
  }

  lemma DispatchAccounted(s: State, q: nat)
    requires Accounted(s, q)
    ensures Accounted(Dispatch(s), q)
  {
    if s.dispatching && s.queue != [] {
      DequeueAccounted(s, q);
      UpdateStateAccounted(Dequeue(s), q);
    }
  }

  lemma CountDownAccounted(s: State, i: nat, q: nat)
    requires i < |s.subs| && Accounted(s, q)
    ensures Accounted(CountDown(s, i), q)
  {
    var c := CountDown(s, i);
    assert c.h.asked == s.h.asked && c.h.answers == s.h.answers && c.h.superseded == s.h.superseded;
    assert c.queue == s.queue && c.desired == s.desired;
  }

  lemma ReleaseAccounted(s: State, n: Name, q: nat)
    requires Accounted(s, q)
    ensures Accounted(Release(s, n), q)
  {
    if ReleaseStatus(s, n) == OK {
      CountDownAccounted(s, Find(s.subs, n).value, q);
      UpdateStateAccounted(CountDown(s, Find(s.subs, n).value), q);
    }
  }

  lemma StepAccounted(s: State, op: Op, q: nat)
    requires Accounted(s, q)
    ensures Accounted(Step(s, op), q)
  {
    match op
    case OpSetMainState(query, m) => SetMainStateAccounted(s, query, m, q);
    case OpDispatch => DispatchAccounted(s, q);
    case OpRelease(n) => ReleaseAccounted(s, n, q);
    case OpSetWaitState(w, m) => TimesQueuedPush(s.queue, Request(m, None, Some(w)), q);
    case OpEnterInitialState(w) => TimesQueuedAppend(s.queue, Request(s.initial, None, Some(w)), q);
    case _ => QuietFrame(s, op);
  }

  /** After any sequence of sections every query is accounted for; in particular
      no query is answered more often than it was made. */
  lemma {:induction false} AlwaysAccounted(ops: seq<Op>, q: nat)
    ensures Accounted(Run(Boot(), ops), q)
  {
    if ops != [] {
      AlwaysAccounted(ops[..|ops| - 1], q);
      StepAccounted(Run(Boot(), ops[..|ops| - 1]), ops[|ops| - 1], q);
    }
  }

  // ---------- truth ----------

  /** A request carries the main state that its query asked for. */
  ghost predicate Genuine(r: Request, asked: seq<Asking>) {
    r.query.Some? ==> Asking(r.query.value, r.state) in asked
  }

  ghost predicate AllGenuine(s: State) {
    Genuine(s.desired, s.h.asked) && forall i :: 0 <= i < |s.queue| ==> Genuine(s.queue[i], s.h.asked)
  }

  /** What an answer given in a section that leads from `s` to `s'` says about a
      query for `m`. */
  ghost predicate Truthful(s: State, s': State, m: Name, status: Status) {
    match status
    case OK => s'.current == Target(m)
    case UnknownState => !Acceptable(s.subs, m)
    case NotAllowed => InternalOnly(m)
    case Cancelled => s.current == SHUTDOWN || s.current == FATAL_ERROR
    case NotActivated => !s.running || s.current == INIT
    case AlreadyActivated => false
    case Error => false
  }

  ghost predicate TruthfulReply(s: State, s': State, r: Reply) {
    exists m :: Asking(r.query, m) in s'.h.asked && Truthful(s, s', m, r.status)
  }

  /** From `s` to `s'` nothing was answered, or one query, truthfully. */
  ghost predicate AnswersTruly(s: State, s': State) {
    || s'.h.answers == s.h.answers
    || (|s'.h.answers| == |s.h.answers| + 1 && s.h.answers <= s'.h.answers
        && TruthfulReply(s, s', s'.h.answers[|s.h.answers|]))
  }

  lemma SettleTruthful(s: State, s': State, status: Status)
    requires Genuine(s.desired, s.h.asked)
    requires s'.h.answers == Answer(s.h, s.desired.query, status).answers && s'.h.asked == s.h.asked
    requires s.desired.query.Some? ==> Truthful(s, s', s.desired.state, status)
    ensures AnswersTruly(s, s')
  {
    if s.desired.query.Some? {
      assert Truthful(s, s', s.desired.state, status);
    }
  }

  lemma SameStateTruthful(s: State)
    requires Config(s.subs) && KnownCurrent(s) && Genuine(s.desired, s.h.asked) && s.desired.state == s.current
    ensures AnswersTruly(s, Settle(s, OK))
  {
    ReservedListed(s.subs);
    SettleTruthful(s, Settle(s, OK), OK);
  }

  lemma PerformTruthful(s: State)
    requires Genuine(s.desired, s.h.asked)
    ensures AnswersTruly(s, Settle(Perform(s.(subs := Marked(s.subs, s.current, s.desired.state))), OK))
  {
    SettleTruthful(s, Settle(Perform(s.(subs := Marked(s.subs, s.current, s.desired.state))), OK), OK);
  }

  lemma UpdateStateTruthful(s: State)
    requires Config(s.subs) && KnownCurrent(s) && (!s.pending ==> s.desired.query.None?)
    requires Genuine(s.desired, s.h.asked)
    ensures AnswersTruly(s, UpdateState(s))
  {
    if s.pending && s.desired.state == s.current {
      SameStateTruthful(s);
    } else if s.pending && !Acceptable(s.subs, s.desired.state) {
      SettleTruthful(s, UpdateState(s), UnknownState);
    } else if s.pending {
      PerformTruthful(s);
    }
  }

  /** The request that stays pending is the one that was, unless it is settled. */
  lemma UpdateStateDesired(s: State)
    ensures var r := UpdateState(s); (r.desired == s.desired || r.desired.query.None?) && r.h.asked == s.h.asked
  {
  }

  lemma TruthTransfer(s: State, t: State, s': State, t': State)
    requires AnswersTruly(t, t')
    requires t.h.answers == s.h.answers && t'.h.answers == s'.h.answers && t'.h.asked == s'.h.asked
    requires t.current == s.current && t.running == s.running && t'.current == s'.current
    requires forall m :: Acceptable(t.subs, m) == Acceptable(s.subs, m)
    ensures AnswersTruly(s, s')
  {
    if t'.h.answers != t.h.answers {
      var reply := t'.h.answers[|t.h.answers|];
      var m :| Asking(reply.query, m) in t'.h.asked && Truthful(t, t', m, reply.status);
      assert Truthful(s, s', m, reply.status);
    }
  }

  lemma DispatchTruthful(s: State)
    requires Inv(s) && AllGenuine(s)
    ensures AnswersTruly(s, Dispatch(s)) && AllGenuine(Dispatch(s))
  {
    if s.dispatching && s.queue != [] {
      var d := Dequeue(s);
      DequeueKeepsCore(s);
      assert Genuine(s.queue[0], s.h.asked);
      UpdateStateTruthful(d);
      UpdateStateDesired(d);
      UpdateStateFrame(d);
      TruthTransfer(s, d, Dispatch(s), UpdateState(d));
    }
  }

  lemma CountDownReplies(s: State, i: nat)
    requires Inv(s) && AllGenuine(s) && i < |s.subs|
    ensures var c := CountDown(s, i);
      && Config(c.subs) && KnownCurrent(c) && (!c.pending ==> c.desired.query.None?) && AllGenuine(c)
      && c.h.answers == s.h.answers
      && forall m :: Acceptable(c.subs, m) == Acceptable(s.subs, m)
  {
    CountDownFrame(s, i);
    ConfigFrame(s.subs, CountDown(s, i).subs);
    ListedTransfer(s.subs, CountDown(s, i).subs);
  }

  lemma ReleaseTruthful(s: State, n: Name)
    requires Inv(s) && AllGenuine(s)
    ensures AnswersTruly(s, Release(s, n)) && AllGenuine(Release(s, n))
  {
    if ReleaseStatus(s, n) == OK {
      var i := Find(s.subs, n).value;
      var c := CountDown(s, i);
      CountDownReplies(s, i);
      CountDownFrame(s, i);
      UpdateStateTruthful(c);
      UpdateStateDesired(c);
      UpdateStateFrame(c);
      TruthTransfer(s, c, Release(s, n), UpdateState(c));
    }
  }

  lemma GenuineLater(r: Request, asked: seq<Asking>, more: seq<Asking>)
    requires Genuine(r, asked)
    ensures Genuine(r, asked + more)
  {
  }

  lemma PushGenuine(s: State, r: Request)
    requires AllGenuine(s) && Genuine(r, s.h.asked)
    ensures AllGenuine(PushHead(s, r)) && AllGenuine(PushTail(s, r))
  {
  }

  lemma SetMainStateTruthful(s: State, q: nat, m: Name)
    requires AllGenuine(s)
    ensures AnswersTruly(s, SetMainState(s, q, m)) && AllGenuine(SetMainState(s, q, m))
  {
    var asked := s.(h := s.h.(asked := s.h.asked + [Asking(q, m)]));
    forall r | Genuine(r, s.h.asked) ensures Genuine(r, asked.h.asked) { GenuineLater(r, s.h.asked, [Asking(q, m)]); }
    assert AllGenuine(asked);
    var r, s' := Request(m, Some(q), None), SetMainState(s, q, m);
    assert asked.h.asked[|s.h.asked|] == Asking(q, m);
    if Refusal(s, m).Some? {
      assert Truthful(s, s', m, Refusal(s, m).value);
    } else {
      PushGenuine(asked, r);
    }
  }

  lemma StepTruthful(s: State, op: Op)
    requires Inv(s) && AllGenuine(s)
    ensures AnswersTruly(s, Step(s, op)) && AllGenuine(Step(s, op))
  {
    match op
    case OpSetMainState(q, m) => SetMainStateTruthful(s, q, m);
    case OpDispatch => DispatchTruthful(s);
    case OpRelease(n) => ReleaseTruthful(s, n);
    case OpSetWaitState(w, m) => PushGenuine(s, Request(m, None, Some(w)));
    case OpEnterInitialState(w) => PushGenuine(s, Request(s.initial, None, Some(w)));
    case _ => QuietFrame(s, op);
  }

  lemma {:induction false} AlwaysGenuine(ops: seq<Op>)
    ensures AllGenuine(Run(Boot(), ops))
  {
    if ops != [] {
      AlwaysGenuine(ops[..|ops| - 1]);
      AlwaysInv(ops[..|ops| - 1]);
      StepTruthful(Run(Boot(), ops[..|ops| - 1]), ops[|ops| - 1]);
    }
  }

  /** In every run, whenever a section answers a query, it answers one, and the
      answer is true: OK means that the component is now in the main state asked
      for, UNKNOWNSTATE that no substate lists it; an internal error is never
      reported. */
  lemma RepliesAreTruthful(ops: seq<Op>, op: Op)
    ensures AnswersTruly(Run(Boot(), ops), Step(Run(Boot(), ops), op))
  {
    AlwaysInv(ops);
    AlwaysGenuine(ops);
    StepTruthful(Run(Boot(), ops), op);
  }

  // ---------- superseded queries ----------

  /** How often a sequence of sections asks query `q`. */
  function Asks(ops: seq<Op>, q: nat): nat {
    if ops == [] then 0
    else
      Asks(ops[..|ops| - 1], q)
      + (if ops[|ops| - 1].OpSetMainState? && ops[|ops| - 1].query == q then 1 else 0)
  }

  lemma StepAsks(s: State, op: Op)
    ensures Step(s, op).h.asked == if op.OpSetMainState? then s.h.asked + [Asking(op.query, op.state)] else s.h.asked
  {
    if op.OpDispatch? && s.dispatching && s.queue != [] {
      DequeueFields(s);
      var _ := UpdateStateAnswers(Dequeue(s));
    } else if op.OpRelease? && ReleaseStatus(s, op.sub) == OK {
      var _ := UpdateStateAnswers(CountDown(s, Find(s.subs, op.sub).value));
    } else if IsQuiet(op) {
      QuietFrame(s, op);
    }
  }

  lemma AskedByStep(s: State, op: Op, q: nat)
    ensures TimesAsked(Step(s, op).h.asked, q)
      == TimesAsked(s.h.asked, q) + (if op.OpSetMainState? && op.query == q then 1 else 0)
  {
    StepAsks(s, op);
    if op.OpSetMainState? {
      AskedCounted(s.h.asked, Asking(op.query, op.state), q);
    }
  }

  lemma {:induction false} AsksAreRecorded(ops: seq<Op>, q: nat)
    ensures TimesAsked(Run(Boot(), ops).h.asked, q) == Asks(ops, q)
  {
    if ops != [] {
      AsksAreRecorded(ops[..|ops| - 1], q);
      AskedByStep(Run(Boot(), ops[..|ops| - 1]), ops[|ops| - 1], q);
    }
  }

  lemma StepSupersedes(s: State, op: Op)
    ensures Step(s, op).h.superseded == s.h.superseded
      + if op.OpDispatch? && s.dispatching && s.queue != [] then AsSeq(s.desired.query) else []
  {
    assert s.h.superseded + [] == s.h.superseded;
    if op.OpDispatch? && s.dispatching && s.queue != [] {
      DequeueFields(s);
      var _ := UpdateStateAnswers(Dequeue(s));
    } else if op.OpRelease? && ReleaseStatus(s, op.sub) == OK {
      var _ := UpdateStateAnswers(CountDown(s, Find(s.subs, op.sub).value));
    } else if IsQuiet(op) {
      QuietFrame(s, op);
    }
  }

  /** A query is superseded when, and only when, the update thread takes another
      request while that query's is pending. */
  lemma SupersedesExactly(s: State, op: Op, q: nat)
    ensures TimesSuperseded(Step(s, op).h.superseded, q) > TimesSuperseded(s.h.superseded, q)
      <==> op.OpDispatch? && s.dispatching && s.queue != [] && s.desired.query == Some(q)
  {
    StepSupersedes(s, op);
    SupersededCounted(s.h.superseded, s.desired.query, q);
    assert s.h.superseded + [] == s.h.superseded;
  }

  lemma SupersededGrows(s: State, op: Op, q: nat)
    ensures TimesSuperseded(s.h.superseded, q) <= TimesSuperseded(Step(s, op).h.superseded, q)
  {
    StepSupersedes(s, op);
    SupersededCounted(s.h.superseded, s.desired.query, q);
    assert s.h.superseded + [] == s.h.superseded;
  }

  lemma RunStep(s: State, ops: seq<Op>, more: seq<Op>)
    requires more != []
    ensures Run(s, ops + more) == Step(Run(s, ops + more[..|more| - 1]), more[|more| - 1])
  {
    assert (ops + more)[..|ops + more| - 1] == ops + more[..|more| - 1];
  }

  lemma {:induction false} SupersededStays(ops: seq<Op>, more: seq<Op>, q: nat)
    ensures TimesSuperseded(Run(Boot(), ops).h.superseded, q) <= TimesSuperseded(Run(Boot(), ops + more).h.superseded, q)
    decreases |more|
  {
    if more == [] {
      assert ops + more == ops;
    } else {
      SupersededStays(ops, more[..|more| - 1], q);
      RunStep(Boot(), ops, more);
      SupersededGrows(Run(Boot(), ops + more[..|more| - 1]), more[|more| - 1], q);
    }
  }

  /** A query that is made once and superseded is not answered, neither then nor in
      any continuation. */
  lemma SupersededIsUnanswered(ops: seq<Op>, more: seq<Op>, q: nat)
    requires Asks(ops + more, q) == 1 && TimesSuperseded(Run(Boot(), ops).h.superseded, q) > 0
    ensures var s := Run(Boot(), ops + more);
      && TimesAnswered(s.h.answers, q) == 0 && TimesQueued(s.queue, q) == 0 && s.desired.query != Some(q)
      && TimesSuperseded(s.h.superseded, q) == 1
  {
    AlwaysAccounted(ops + more, q);
    AsksAreRecorded(ops + more, q);
    SupersededStays(ops, more, q);
  }
}
