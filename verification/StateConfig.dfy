/** The configuration that any sequence of defineStates calls builds. */
module StateConfig {
  import opened Names
  import opened StateModel

  ghost predicate Distinct(names: seq<Name>) {
    forall i, j :: 0 <= i < j < |names| ==> names[i] != names[j]
  }

  ghost predicate UniqueNames(subs: seq<SubState>) {
    forall i, j :: 0 <= i < j < |subs| ==> subs[i].name != subs[j].name
  }

  ghost predicate UserMain(names: seq<Name>) {
    Distinct(names) && forall m :: m in names ==> !ReservedMain(m)
  }

  ghost predicate UserSub(sub: SubState, users: seq<Name>) {
    && !ReservedSub(sub.name) && sub.mainstates != [] && Distinct(sub.mainstates)
    && forall m :: m in sub.mainstates ==> m in users
  }

  ghost predicate ReservedSubs(subs: seq<SubState>) {
    && |subs| >= 5
    && subs[0].name == INIT_LOWER && subs[0].mainstates == [INIT]
    && subs[1].name == NEUTRAL_LOWER && subs[1].mainstates == [NEUTRAL]
    && subs[2].name == FATAL_ERROR_CAMEL && subs[2].mainstates == [FATAL_ERROR]
    && subs[3].name == SHUTDOWN_LOWER && subs[3].mainstates == [SHUTDOWN]
    && subs[4].name == NONNEUTRAL_LOWER
  }

  /** Substate names are unique, no list repeats a main state, the reserved
      substates keep their own main state, and "nonneutral" lists exactly the
      user's main states: no reserved one, and all that user substates list. */
  ghost predicate Config(subs: seq<SubState>) {
    && UniqueNames(subs) && ReservedSubs(subs) && UserMain(subs[4].mainstates)
    && forall i :: 5 <= i < |subs| ==> UserSub(subs[i], subs[4].mainstates)
  }

  ghost predicate SameConfig(a: seq<SubState>, b: seq<SubState>) {
    |a| == |b| && forall i :: 0 <= i < |a| ==> a[i].name == b[i].name && a[i].mainstates == b[i].mainstates
  }

  lemma ConfigFrame(a: seq<SubState>, b: seq<SubState>)
    requires Config(a) && SameConfig(a, b)
    ensures Config(b)
  {
    assert UniqueNames(b);
    forall i | 5 <= i < |b| ensures UserSub(b[i], b[4].mainstates) { assert UserSub(a[i], a[4].mainstates); }
  }

  lemma ListedFrame(a: seq<SubState>, b: seq<SubState>, m: Name)
    requires SameConfig(a, b) && Listed(a, m)
    ensures Listed(b, m)
  {
    var i :| 0 <= i < |a| && m in a[i].mainstates;
    assert m in b[i].mainstates;
  }

  /** Lookup is exact when names are unique. */
  lemma FindAt(subs: seq<SubState>, i: nat)
    requires i < |subs| && UniqueNames(subs)
    ensures Find(subs, subs[i].name) == Some(i)
  {
    var r := Find(subs, subs[i].name);
    assert r.Some? ==> !(r.value < i) && !(i < r.value);
  }

  lemma {:induction false} OccursOnce(subs: seq<SubState>, name: Name)
    requires UniqueNames(subs)
    ensures Occurrences(subs, name) == if Find(subs, name).Some? then 1 else 0
  {
    if subs != [] {
      OccursOnce(subs[..|subs| - 1], name);
    }
  }

  lemma {:induction false} CountDistinct(names: seq<Name>, n: Name)
    requires Distinct(names)
    ensures Count(names, n) == if n in names then 1 else 0
  {
    if names != [] {
      var front := names[..|names| - 1];
      assert names == front + [names[|names| - 1]];
      CountDistinct(front, n);
    }
  }

  function Add(names: seq<Name>, m: Name): (r: seq<Name>)
    ensures forall x :: x in r <==> x in names || x == m
  {
    if m in names then names else names + [m]
  }

  lemma AddDistinct(names: seq<Name>, m: Name)
    requires Distinct(names)
    ensures Distinct(Add(names, m))
  {
  }

  /** `subs` with main state `m` assigned to the substate at `i`. */
  function With(subs: seq<SubState>, i: nat, m: Name): (r: seq<SubState>)
    requires i < |subs|
    ensures |r| == |subs|
  {
    subs[i := subs[i].(mainstates := Add(subs[i].mainstates, m))]
  }

  ghost predicate At(sub: SubState, n: Name, m: Name) { sub.name == n && m in sub.mainstates }

  /** Substate `n` belongs to main state `m`. */
  ghost predicate Lists(subs: seq<SubState>, n: Name, m: Name) {
    exists i :: 0 <= i < |subs| && At(subs[i], n, m)
  }

  /** Assigning to a substate with a unique name and a list without repetition
      never fails. */
  lemma AssignEffect(subs: seq<SubState>, i: nat, m: Name)
    requires i < |subs| && UniqueNames(subs) && Distinct(subs[i].mainstates)
    ensures Assign(subs, subs[i].name, m) == (With(subs, i, m), OK)
  {
    FindAt(subs, i);
    OccursOnce(subs, subs[i].name);
    CountDistinct(subs[i].mainstates, m);
  }

  /** The list of substates after a successful defineStates. */
  function Defined(subs: seq<SubState>, m: Name, n: Name): seq<SubState>
    requires |subs| >= 5
  {
    var a := With(subs, 4, m);
    match Find(a, n)
    case None => a + [SubState(n, [m], 0, Keep, false)]
    case Some(i) => With(a, i, m)
  }

  lemma WithKeepsConfig(subs: seq<SubState>, i: nat, m: Name)
    requires Config(subs) && 4 <= i < |subs| && !ReservedMain(m)
    requires i == 4 || m in subs[4].mainstates
    ensures Config(With(subs, i, m))
  {
    var r := With(subs, i, m);
    assert UniqueNames(r);
    if i == 4 {
      AddDistinct(subs[4].mainstates, m);
    } else {
      assert UserSub(subs[i], subs[4].mainstates);
      AddDistinct(subs[i].mainstates, m);
    }
    forall j | 5 <= j < |r| ensures UserSub(r[j], r[4].mainstates) {
      assert UserSub(subs[j], subs[4].mainstates);
    }
  }

  lemma UserIndex(subs: seq<SubState>, n: Name)
    requires Config(subs) && !ReservedSub(n)
    ensures Find(subs, n).Some? ==> Find(subs, n).value >= 5
  {
  }

  lemma DefinedKeepsConfig(subs: seq<SubState>, m: Name, n: Name)
    requires Config(subs) && !ReservedMain(m) && !ReservedSub(n)
    ensures Config(Defined(subs, m, n))
  {
    WithKeepsConfig(subs, 4, m);
    var a := With(subs, 4, m);
    UserIndex(a, n);
    var at := Find(a, n);
    if at.Some? {
      WithKeepsConfig(a, at.value, m);
    } else {
      var r := a + [SubState(n, [m], 0, Keep, false)];
      forall j | 5 <= j < |r| ensures UserSub(r[j], r[4].mainstates) {
        assert j < |a| ==> UserSub(a[j], a[4].mainstates);
      }
    }
  }

  /** defineStates on a good configuration: the error branches are dead, and the
      outcome depends only on activation and on the two names. */
  lemma DefineStatesOutcome(s: State, m: Name, n: Name)
    requires Config(s.subs)
    ensures DefineStates(s, m, n)
      == if s.running then (s, AlreadyActivated)
         else if ReservedMain(m) || ReservedSub(n) then (s, NotAllowed)
         else (s.(subs := Defined(s.subs, m, n)), OK)
  {
    if !s.running && !ReservedMain(m) && !ReservedSub(n) {
      AssignEffect(s.subs, 4, m);
      WithKeepsConfig(s.subs, 4, m);
      var a := With(s.subs, 4, m);
      UserIndex(a, n);
      var at := Find(a, n);
      if at.Some? {
        assert UserSub(a[at.value], a[4].mainstates);
        AssignEffect(a, at.value, m);
      }
    }
  }

  lemma WithLists(subs: seq<SubState>, i: nat, m: Name, a: Name, b: Name)
    requires i < |subs|
    ensures Lists(With(subs, i, m), a, b) <==> Lists(subs, a, b) || (a == subs[i].name && b == m)
  {
    var r := With(subs, i, m);
    if Lists(subs, a, b) {
      var j :| 0 <= j < |subs| && At(subs[j], a, b);
      assert At(r[j], a, b);
    }
    if a == subs[i].name && b == m { assert At(r[i], a, b); }
    if Lists(r, a, b) {
      var j :| 0 <= j < |r| && At(r[j], a, b);
      if j != i { assert At(subs[j], a, b); } else if b != m { assert At(subs[i], a, b); }
    }
  }

  lemma AppendLists(subs: seq<SubState>, sub: SubState, a: Name, b: Name)
    ensures Lists(subs + [sub], a, b) <==> Lists(subs, a, b) || At(sub, a, b)
  {
    var r := subs + [sub];
    if Lists(subs, a, b) {
      var j :| 0 <= j < |subs| && At(subs[j], a, b);
      assert At(r[j], a, b);
    }
    if At(sub, a, b) { assert At(r[|subs|], a, b); }
    if Lists(r, a, b) {
      var j :| 0 <= j < |r| && At(r[j], a, b);
      if j < |subs| { assert At(subs[j], a, b); }
    }
  }

  /** A successful defineStates(m, n) assigns m to n and to "nonneutral", and
      changes no other assignment. */
  lemma DefinedLists(subs: seq<SubState>, m: Name, n: Name, a: Name, b: Name)
    requires Config(subs)
    ensures Lists(Defined(subs, m, n), a, b)
      <==> Lists(subs, a, b) || (b == m && (a == n || a == NONNEUTRAL_LOWER))
  {
    WithLists(subs, 4, m, a, b);
    var x := With(subs, 4, m);
    var at := Find(x, n);
    if at.Some? {
      WithLists(x, at.value, m, a, b);
    } else {
      AppendLists(x, SubState(n, [m], 0, Keep, false), a, b);
    }
  }

  lemma WithTwice(subs: seq<SubState>, i: nat, m: Name)
    requires i < |subs| && m in subs[i].mainstates
    ensures With(subs, i, m) == subs
  {
  }

  /** Repeating a defineStates call changes nothing. */
  lemma DefineStatesIdempotent(s: State, m: Name, n: Name)
    requires Config(s.subs) && DefineStates(s, m, n).1 == OK
    ensures DefineStates(DefineStates(s, m, n).0, m, n) == DefineStates(s, m, n)
  {
    DefineStatesOutcome(s, m, n);
    DefinedKeepsConfig(s.subs, m, n);
    var r := DefineStates(s, m, n).0;
    DefineStatesOutcome(r, m, n);
    var a, d := With(s.subs, 4, m), r.subs;
    var i := match Find(a, n) case None => |a| case Some(at) => at;
    assert m in d[4].mainstates && d[i].name == n && m in d[i].mainstates;
    WithTwice(d, 4, m);
    WithTwice(d, i, m);
    FindAt(d, i);
  }

  // ---------- what the masters are told ----------

  function MainStates(subs: seq<SubState>): (Status, seq<Name>) {
    match Find(subs, NONNEUTRAL_LOWER)
    case None => (Error, [NEUTRAL])
    case Some(i) => (OK, [NEUTRAL] + subs[i].mainstates)
  }

  function SubStates(subs: seq<SubState>, m: Name): seq<Name> {
    if subs == [] then []
    else
      SubStates(subs[..|subs| - 1], m)
      + (if m in subs[|subs| - 1].mainstates then [subs[|subs| - 1].name] else [])
  }

  lemma {:induction false} SubStatesExact(subs: seq<SubState>, m: Name, n: Name)
    ensures n in SubStates(subs, m) <==> Lists(subs, n, m)
  {
    if subs != [] {
      var front := subs[..|subs| - 1];
      SubStatesExact(front, m, n);
      AppendLists(front, subs[|subs| - 1], n, m);
      assert subs == front + [subs[|subs| - 1]];
    }
  }

  /** Every main state the slave reports has substates and is accepted by a
      state change; and it reports every main state that lists any substate,
      except Init, FatalError and Shutdown. */
  lemma ReportedStates(subs: seq<SubState>, m: Name)
    requires Config(subs)
    ensures MainStates(subs).0 == OK
    ensures m in MainStates(subs).1 <==> SubStates(subs, m) != [] && m != INIT && m != FATAL_ERROR && m != SHUTDOWN
    ensures m in MainStates(subs).1 ==> Acceptable(subs, m)
  {
    FindAt(subs, 4);
    if m in MainStates(subs).1 {
      var i := if m == NEUTRAL then 1 else 4;
      assert At(subs[i], subs[i].name, m);
      SubStatesExact(subs, m, subs[i].name);
    }
    if SubStates(subs, m) != [] {
      var n := SubStates(subs, m)[0];
      SubStatesExact(subs, m, n);
      var i :| 0 <= i < |subs| && At(subs[i], n, m);
      if i >= 5 { assert UserSub(subs[i], subs[4].mainstates); }
    }
  }

  /** setUpInitialState accepts exactly the main states that are reported. */
  lemma InitialStateIsReported(s: State, m: Name)
    requires Config(s.subs)
    ensures SetUpInitialState(s, m) == if m in MainStates(s.subs).1 then (s.(initial := m), OK) else (s, Error)
  {
    FindAt(s.subs, 4);
    OccursOnce(s.subs, NONNEUTRAL_LOWER);
  }
}
