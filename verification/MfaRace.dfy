/** The bound of `MfaAttempts` is reached: for every number of requests in flight there is an
    interleaving, from the empty database on, that checks as many wrong codes as it allows. */
module MfaRace {
  import opened Prelude
  import opened Mfa
  import opened MfaInterleaving
  import opened MfaAttempts

  // ---------------------------------------------------------------- runs put together

  /** Some actions lead from one state to the other, never with more than `m` requests in flight. */
  ghost predicate Can(c: Crypto, s: State, m: nat, s': State) {
    exists actions: seq<Action> :: RunFrom(c, s, actions) == s' && Within(c, s, actions, TOKEN, m)
  }

  lemma {:induction false} Appended(c: Crypto, s: State, a: seq<Action>, b: seq<Action>, m: nat)
    requires Within(c, s, a, TOKEN, m) && Within(c, RunFrom(c, s, a), b, TOKEN, m)
    ensures RunFrom(c, s, a + b) == RunFrom(c, RunFrom(c, s, a), b) && Within(c, s, a + b, TOKEN, m)
    decreases |b|
  {
    hide Next, InFlight;
    if b == [] {
      AppendNil(a);
    } else {
      var n := |b| - 1;
      assert (a + b)[..|a| + n] == a + b[..n] && (a + b)[|a| + n] == b[n];
      Appended(c, s, a, b[..n], m);
    }
  }

  lemma {:induction false} Through(c: Crypto, s: State, m: nat, s': State, s'': State)
    requires Can(c, s, m, s') && Can(c, s', m, s'')
    ensures Can(c, s, m, s'')
  {
    hide RunFrom, Within;
    var a :| RunFrom(c, s, a) == s' && Within(c, s, a, TOKEN, m);
    var b :| RunFrom(c, s', b) == s'' && Within(c, s', b, TOKEN, m);
    Appended(c, s, a, b, m);
  }

  lemma {:induction false} Step(c: Crypto, s: State, a: Action, m: nat)
    requires InFlight(Next(c, s, a), TOKEN) <= m
    ensures Can(c, s, m, Next(c, s, a))
  {
    hide Next, InFlight;
    var one := [a];
    assert one[..|one| - 1] == [] && RunFrom(c, s, []) == s && Within(c, s, [], TOKEN, m);
    assert RunFrom(c, s, one) == Next(c, s, a) && Within(c, s, one, TOKEN, m);
  }

  // ---------------------------------------------------------------- requests in flight

  predicate Flies(task: Task) { Waiting(task, TOKEN) || Counting(task, TOKEN) }

  /** A request set to another task flies or not by that task alone. */
  lemma {:induction false} FlightMoves(s: State, s': State, req: Req, task': Task)
    requires s'.tasks == s.tasks[req := task']
    ensures InFlight(s', TOKEN) <= InFlight(s, TOKEN) + if (req in s.tasks && Flies(s.tasks[req])) || !Flies(task') then 0 else 1
  {
    hide WaitingSet, CountingSet;
    SetsMove(s, s', req, task', TOKEN);
    var f, f' := WaitingSet(s, TOKEN) + CountingSet(s, TOKEN), WaitingSet(s', TOKEN) + CountingSet(s', TOKEN);
    if req in s.tasks {
      InSets(s, req, TOKEN);
    }
    if (req in s.tasks && Flies(s.tasks[req])) || !Flies(task') {
      assert f == f' + (f - f');
    } else {
      assert f + {req} == f' + (f + {req} - f');
    }
  }

  /** One statement of a request, by what it does. */
  lemma {:induction false} Go(c: Crypto, s: State, req: Req, i: Input, s': State, m: nat)
    requires req in s.tasks && req in s'.tasks && Next(c, s, Run(req, i)) == s' && s'.tasks == s.tasks[req := s'.tasks[req]]
    requires InFlight(s, TOKEN) + (if Flies(s.tasks[req]) || !Flies(s'.tasks[req]) then 0 else 1) <= m
    ensures Can(c, s, m, s')
  {
    hide Next, InFlight, Flies;
    FlightMoves(s, s', req, s'.tasks[req]);
    Step(c, s, Run(req, i), m);
  }

  // ---------------------------------------------------------------- the scene

  const TOKEN: Token := "T"
  const ID: Id := 1
  const USER: Id := 2
  const MEMBER := Member("t", ID, true, None)
  const NEW_ROW := Identity(true, None, false, false, None, None, 0, None)

  function In(secret: string, at: nat): Input { Input(at, true, TOKEN, secret, 0, map[]) }

  /** This code confirms this secret at this time. */
  predicate Confirms(c: Crypto, secret: string, code: string, at: nat) {
    ConfirmStep(c, NEW_ROW.(secret := Some(secret)), code, at).Some?
  }

  /** One identity with one membership, no challenge yet. */
  function Scene(row: Identity, epochs: map<Id, nat>, tasks: map<Req, Task>, log: seq<Event>): State {
    State(Db(map[ID := row], map[], map[], map[USER := MEMBER]), epochs, map[], {}, tasks, log)
  }

  lemma {:induction false} Calm(s: State)
    requires forall r :: r in s.tasks ==> !Flies(s.tasks[r])
    ensures InFlight(s, TOKEN) == 0
  {
    forall r | r in s.tasks ensures !Waiting(s.tasks[r], TOKEN) && !Counting(s.tasks[r], TOKEN) {
      assert !Flies(s.tasks[r]);
    }
    assert WaitingSet(s, TOKEN) == {} && CountingSet(s, TOKEN) == {};
  }

  /** One action between two states in which nothing is in flight. */
  lemma {:induction false} CalmStep(c: Crypto, s: State, m: nat, s': State, a: Action, s'': State)
    requires Can(c, s, m, s') && Next(c, s', a) == s'' && forall r :: r in s''.tasks ==> !Flies(s''.tasks[r])
    ensures Can(c, s, m, s'')
  {
    hide Next, Can, InFlight, Flies;
    Calm(s'');
    Step(c, s', a, m);
    Through(c, s, m, s', s'');
  }

  lemma {:induction false} Stay(c: Crypto, s: State, m: nat)
    ensures Can(c, s, m, s)
  {
    assert RunFrom(c, s, []) == s && Within(c, s, [], TOKEN, m);
  }

  lemma {:induction false} RunIs(c: Crypto, s: State, req: Req, i: Input, eff: Effect, task': Task)
    requires req in s.tasks && Program(c, s, s.tasks[req], i) == (eff, task')
    ensures Next(c, s, Run(req, i)) == Do(s, req, eff).(tasks := s.tasks[req := task'])
  {
    hide Program, Do;
  }

  function One(t: Task): map<Req, Task> { map[0 := t] }

  function Two(t: Task): map<Req, Task> { map[0 := Task.Done, 1 := t] }

  function Three(t: Task): map<Req, Task> { map[0 := Task.Done, 1 := Task.Done, 2 := t] }

  lemma {:induction false} MapsMove(t: Task, t': Task)
    ensures One(t)[0 := t'] == One(t') && Two(t)[1 := t'] == Two(t') && Three(t)[2 := t'] == Three(t')
    ensures One(Task.Done)[1 := t] == Two(t) && Two(Task.Done)[2 := t] == Three(t)
  {
  }

  function Enrolled(secret: string): State { Scene(NEW_ROW.(secret := Some(secret)), map[ID := 1], One(Task.Done), []) }

  /** The identity and its membership are created and enrollment is begun. */
  lemma {:induction false} Enrolling(c: Crypto, secret: string, at: nat, m: nat)
    ensures Can(c, START, m, Enrolled(secret))
  {
    hide Can;
    var i := In(secret, at);
    Stay(c, START, m);
    var s1 := Next(c, START, NewIdentity(ID, NEW_ROW));
    CalmStep(c, START, m, START, NewIdentity(ID, NEW_ROW), s1);
    var s2 := Next(c, s1, ChangeUser(USER, MEMBER));
    assert s2 == Scene(NEW_ROW, map[], map[], []);
    CalmStep(c, START, m, s1, ChangeUser(USER, MEMBER), s2);
    var s3 := Scene(NEW_ROW, map[], One(LoadForEnroll(ID)), []);
    CalmStep(c, START, m, s2, Spawn(0, LoadForEnroll(ID)), s3);
    var s4 := Scene(NEW_ROW, map[], One(StorePending(ID)), []);
    assert Next(c, s3, Run(0, i)) == s4;
    CalmStep(c, START, m, s3, Run(0, i), s4);
    assert Next(c, s4, Run(0, i)) == Enrolled(secret);
    CalmStep(c, START, m, s4, Run(0, i), Enrolled(secret));
  }

  function OnRow(secret: string, k: nat): Identity {
    NEW_ROW.(secret := Some(secret), lastStep := Some(k), mfaEnabled := true)
  }

  function On2(secret: string, k: nat, tasks: map<Req, Task>, more: seq<Event>): State {
    Scene(OnRow(secret, k), map[ID := 1], tasks, [Confirmed(1, ID, 1, k, true)] + more)
  }

  lemma {:induction false} ConfirmProgram(c: Crypto, s: State, row: Identity, secret: string, code: string, at: nat, k: nat)
    requires s.db.identities == map[ID := row] && s.usedRows == {}
    ensures Program(c, s, LoadForConfirm(ID, code), In(secret, at)) == (Quiet, MarkConfirm(ID, row, code))
    ensures ConfirmStep(c, row, code, at) == Some(k) ==>
              Program(c, s, MarkConfirm(ID, row, code), In(secret, at)) == (ConfirmMark(ID, k), TurnOn(ID))
    ensures Program(c, s, TurnOn(ID), In(secret, at)) == (On(ID, map[]), Task.Done)
  {
    hide ConfirmStep;
  }

  lemma {:induction false} ConfirmEffects(row: Identity, k: nat, tasks: map<Req, Task>)
    requires row.lastStep == None
    ensures Do(Scene(row, map[ID := 1], tasks, []), 1, ConfirmMark(ID, k))
            == Scene(row.(lastStep := Some(k)), map[ID := 1], tasks, [Confirmed(1, ID, 1, k, true)])
    ensures Do(Scene(row, map[ID := 1], tasks, []), 1, Quiet) == Scene(row, map[ID := 1], tasks, [])
  {
    var s := Scene(row, map[ID := 1], tasks, []);
    assert Do(s, 1, ConfirmMark(ID, k)).db.identities == map[ID := row.(lastStep := Some(k))];
  }

  lemma {:induction false} TurnOnEffect(row: Identity, tasks: map<Req, Task>, log: seq<Event>)
    ensures Do(Scene(row, map[ID := 1], tasks, log), 1, On(ID, map[])) == Scene(row.(mfaEnabled := true), map[ID := 1], tasks, log)
  {
    var s := Scene(row, map[ID := 1], tasks, log);
    var s' := Do(s, 1, On(ID, map[]));
    assert s'.db.identities == map[ID := row.(mfaEnabled := true)] && s'.db.codes == map[] && s'.usedRows == {};
  }

  /** Enrollment is confirmed: MFA is on. */
  lemma {:induction false} TurningOn(c: Crypto, secret: string, code: string, at: nat, m: nat, k: nat)
    requires ConfirmStep(c, NEW_ROW.(secret := Some(secret)), code, at) == Some(k)
    ensures Can(c, Enrolled(secret), m, On2(secret, k, Two(Task.Done), []))
  {
    hide Can, ConfirmStep, Program, Do;
    var i := In(secret, at);
    var row, e := NEW_ROW.(secret := Some(secret)), map[ID := 1];
    var marked, log := row.(lastStep := Some(k)), [Confirmed(1, ID, 1, k, true)];
    var t1, t2, t3 := LoadForConfirm(ID, code), MarkConfirm(ID, row, code), TurnOn(ID);
    MapsMove(t1, t2);
    MapsMove(t2, t3);
    MapsMove(t3, Task.Done);
    var s0, s1 := Enrolled(secret), Scene(row, e, Two(t1), []);
    Stay(c, s0, m);
    CalmStep(c, s0, m, s0, Spawn(1, t1), s1);
    ConfirmProgram(c, s1, row, secret, code, at, k);
    ConfirmEffects(row, k, Two(t1));
    RunIs(c, s1, 1, i, Quiet, t2);
    var s2 := Scene(row, e, Two(t2), []);
    CalmStep(c, s0, m, s1, Run(1, i), s2);
    ConfirmProgram(c, s2, row, secret, code, at, k);
    ConfirmEffects(row, k, Two(t2));
    RunIs(c, s2, 1, i, ConfirmMark(ID, k), t3);
    var s3 := Scene(marked, e, Two(t3), log);
    CalmStep(c, s0, m, s2, Run(1, i), s3);
    ConfirmProgram(c, s3, marked, secret, code, at, k);
    TurnOnEffect(marked, Two(t3), log);
    RunIs(c, s3, 1, i, On(ID, map[]), Task.Done);
    AppendNil(log);
    CalmStep(c, s0, m, s3, Run(1, i), On2(secret, k, Two(Task.Done), []));
  }

  lemma {:induction false} LoginProgram(c: Crypto, s: State, row: Identity, secret: string, at: nat)
    requires s.db.identities == map[ID := row] && s.db.users == map[USER := MEMBER] && s.issuedTo == map[]
    ensures Program(c, s, LoadUser(USER), In(secret, at)) == (Quiet, LoadForLogin(USER, ID))
    ensures Program(c, s, LoadForLogin(USER, ID), In(secret, at)) == (Load(ID, row), Finalize(USER, ID, row))
    ensures row.mfaEnabled && !row.forceChange ==>
              Program(c, s, Finalize(USER, ID, row), In(secret, at)) == (Pass(USER, ID, row), PurgeOld(USER, ID, row))
    ensures Program(c, s, PurgeOld(USER, ID, row), In(secret, at)) == (Purge(at), IssueChallenge(USER, ID, row))
    ensures Program(c, s, IssueChallenge(USER, ID, row), In(secret, at))
            == (Issue(TOKEN, USER, ID, at + 300), Task.Done)
  {
  }

  lemma {:induction false} LoginEffects(s: State, row: Identity, at: nat)
    requires s.db.challenges == map[]
    ensures Do(s, 2, Quiet) == s && Do(s, 2, Purge(at)) == s
    ensures Do(s, 2, Load(ID, row)) == s.(log := s.log + [Loaded(2, ID, row)])
    ensures Do(s, 2, Pass(USER, ID, row)) == s.(log := s.log + [Passed(2, USER, ID, row)])
    ensures Do(s, 2, Issue(TOKEN, USER, ID, at + 300))
            == s.(db := s.db.(challenges := map[TOKEN := Challenge(USER, 0, at + 300)]),
                  issuedTo := s.issuedTo[TOKEN := USER], log := s.log + [Issued(2, TOKEN, USER, ID)])
  {
    assert PurgeChallenges(s.db, at).challenges == map[];
  }

  /** One statement of the login that adds to the log at most. */
  lemma {:induction false} LoginStep(c: Crypto, s0: State, m: nat, secret: string, k: nat, at: nat, t: Task, log: seq<Event>, eff: Effect, t': Task, log': seq<Event>)
    requires var s := On2(secret, k, Three(t), log);
             && Can(c, s0, m, s) && Program(c, s, t, In(secret, at)) == (eff, t') && !Flies(t')
             && Do(s, 2, eff) == s.(log := [Confirmed(1, ID, 1, k, true)] + log')
    ensures Can(c, s0, m, On2(secret, k, Three(t'), log'))
  {
    hide Can, Program, Do;
    var s := On2(secret, k, Three(t), log);
    MapsMove(t, t');
    RunIs(c, s, 2, In(secret, at), eff, t');
    CalmStep(c, s0, m, s, Run(2, In(secret, at)), On2(secret, k, Three(t'), log'));
  }

  /** A login passes its first factor and meets MFA. */
  lemma {:induction false} LoggingIn(c: Crypto, secret: string, at: nat, m: nat, k: nat)
    ensures var row := OnRow(secret, k);
            Can(c, On2(secret, k, Two(Task.Done), []), m,
                On2(secret, k, Three(PurgeOld(USER, ID, row)), [Loaded(2, ID, row)] + [Passed(2, USER, ID, row)]))
  {
    hide Can, Program, Do;
    var row := OnRow(secret, k);
    var t1, t2, t3, t4 := LoadUser(USER), LoadForLogin(USER, ID), Finalize(USER, ID, row), PurgeOld(USER, ID, row);
    var loaded, passed := [Loaded(2, ID, row)], [Passed(2, USER, ID, row)];
    var s0, s1 := On2(secret, k, Two(Task.Done), []), On2(secret, k, Three(t1), []);
    MapsMove(t1, t2);
    Stay(c, s0, m);
    CalmStep(c, s0, m, s0, Spawn(2, t1), s1);
    hide Three, Two;
    LoginProgram(c, s1, row, secret, at);
    LoginEffects(s1, row, at);
    LoginStep(c, s0, m, secret, k, at, t1, [], Quiet, t2, []);
    var s2 := On2(secret, k, Three(t2), []);
    LoginProgram(c, s2, row, secret, at);
    LoginEffects(s2, row, at);
    LoginStep(c, s0, m, secret, k, at, t2, [], Load(ID, row), t3, loaded);
    var s3 := On2(secret, k, Three(t3), loaded);
    LoginProgram(c, s3, row, secret, at);
    LoginEffects(s3, row, at);
    Assoc([Confirmed(1, ID, 1, k, true)], loaded, passed);
    LoginStep(c, s0, m, secret, k, at, t3, loaded, Pass(USER, ID, row), t4, loaded + passed);
  }

  /** The challenge is there, untried. */
  function Challenged(secret: string, k: nat, at: nat): State {
    var row := OnRow(secret, k);
    var s := On2(secret, k, Three(Task.Done), [Loaded(2, ID, row)] + [Passed(2, USER, ID, row)]);
    s.(db := s.db.(challenges := map[TOKEN := Challenge(USER, 0, at + 300)]), issuedTo := map[TOKEN := USER],
       log := s.log + [Issued(2, TOKEN, USER, ID)])
  }

  lemma {:induction false} GettingChallenge(c: Crypto, secret: string, at: nat, m: nat, k: nat)
    ensures var row := OnRow(secret, k);
            Can(c, On2(secret, k, Three(PurgeOld(USER, ID, row)), [Loaded(2, ID, row)] + [Passed(2, USER, ID, row)]), m,
                Challenged(secret, k, at))
  {
    hide Can, Program, Do;
    var i := In(secret, at);
    var row := OnRow(secret, k);
    var log := [Loaded(2, ID, row)] + [Passed(2, USER, ID, row)];
    var t1, t2 := PurgeOld(USER, ID, row), IssueChallenge(USER, ID, row);
    MapsMove(t1, t2);
    MapsMove(t2, Task.Done);
    var s0, s1 := On2(secret, k, Three(t1), log), On2(secret, k, Three(t2), log);
    Stay(c, s0, m);
    LoginProgram(c, s0, row, secret, at);
    LoginEffects(s0, row, at);
    RunIs(c, s0, 2, i, Purge(at), t2);
    CalmStep(c, s0, m, s0, Run(2, i), s1);
    LoginProgram(c, s1, row, secret, at);
    LoginEffects(s1, row, at);
    RunIs(c, s1, 2, i, Issue(TOKEN, USER, ID, at + 300), Task.Done);
    CalmStep(c, s0, m, s1, Run(2, i), Challenged(secret, k, at));
  }

  /** From the empty database to a live challenge. */
  lemma {:induction false} Prepared(c: Crypto, secret: string, code: string, at: nat, m: nat, k: nat)
    requires ConfirmStep(c, NEW_ROW.(secret := Some(secret)), code, at) == Some(k)
    ensures Can(c, START, m, Challenged(secret, k, at))
  {
    hide *;
    Enrolling(c, secret, at, m);
    TurningOn(c, secret, code, at, m, k);
    LoggingIn(c, secret, at, m, k);
    GettingChallenge(c, secret, at, m, k);
    var row := OnRow(secret, k);
    var mid := On2(secret, k, Three(PurgeOld(USER, ID, row)), [Loaded(2, ID, row)] + [Passed(2, USER, ID, row)]);
    Through(c, START, m, Enrolled(secret), On2(secret, k, Two(Task.Done), []));
    Through(c, START, m, On2(secret, k, Two(Task.Done), []), mid);
    Through(c, START, m, mid, Challenged(secret, k, at));
  }

  // ---------------------------------------------------------------- wrong codes

  const BLANK := ReadChallenge(TOKEN, "")
  const PAST_CHECK := ReadUser(TOKEN, "", USER)

  /** The challenge after `wrong` wrong codes, all counted, the identity not locked. */
  predicate Live(db: Db, wrong: nat, at: nat) {
    && ID in db.identities && USER in db.users && db.users[USER] == MEMBER
    && db.identities[ID].active && db.identities[ID].lockedUntil == None && db.identities[ID].failed == wrong
    && TOKEN in db.challenges && db.challenges[TOKEN] == Challenge(USER, wrong, at + 300)
  }

  /** A request has arrived and passed the attempt check. */
  function Past(s: State, req: Req): State { s.(tasks := s.tasks[req := PAST_CHECK]) }

  /** Its wrong code has been checked. */
  function Missed(s: State, req: Req): State
    requires ID in s.db.identities
  {
    var row := s.db.identities[ID];
    s.(tasks := s.tasks[req := CountAttempt(TOKEN, ID, row)], log := s.log + [Loaded(req, ID, row), Wrong(req, TOKEN)])
  }

  /** The attempt and the failure have been counted. */
  function Counted(s: State, req: Req): State
    requires ID in s.db.identities && TOKEN in s.db.challenges
  {
    var row, ch := s.db.identities[ID], s.db.challenges[TOKEN];
    s.(tasks := s.tasks[req := Task.Done],
       db := s.db.(challenges := s.db.challenges[TOKEN := ch.(attempts := ch.attempts + 1)],
                   identities := s.db.identities[ID := row.(failed := row.failed + 1)]))
  }

  lemma {:induction false} Passing(c: Crypto, s: State, req: Req, wrong: nat, at: nat, m: nat)
    requires Live(s.db, wrong, at) && wrong < 5 && req !in s.tasks && InFlight(s, TOKEN) < m
    ensures Can(c, s, m, Past(s, req))
  {
    hide Can, InFlight;
    var s1 := s.(tasks := s.tasks[req := BLANK]);
    FlightMoves(s, s1, req, BLANK);
    Step(c, s, Spawn(req, BLANK), m);
    assert Next(c, s1, Run(req, In("", at))) == Past(s, req);
    Go(c, s1, req, In("", at), Past(s, req), m);
    Through(c, s, m, s1, Past(s, req));
  }

  lemma {:induction false} Missing(c: Crypto, s: State, req: Req, wrong: nat, at: nat, m: nat)
    requires Live(s.db, wrong, at) && req in s.tasks && s.tasks[req] == PAST_CHECK && InFlight(s, TOKEN) <= m
    ensures Can(c, s, m, Missed(s, req))
  {
    hide Can, InFlight;
    var i := In("", at);
    var row := s.db.identities[ID];
    var s1 := s.(tasks := s.tasks[req := ReadIdentity(TOKEN, "", USER, MEMBER)]);
    assert Next(c, s, Run(req, i)) == s1;
    Go(c, s, req, i, s1, m);
    FlightMoves(s, s1, req, s1.tasks[req]);
    var s2 := s.(tasks := s.tasks[req := CheckCode(TOKEN, "", USER, MEMBER, row)], log := s.log + [Loaded(req, ID, row)]);
    assert Next(c, s1, Run(req, i)) == s2;
    Go(c, s1, req, i, s2, m);
    FlightMoves(s1, s2, req, s2.tasks[req]);
    Through(c, s, m, s1, s2);
    BlankIsRejected(c, row, at);
    assert s2.log + [Wrong(req, TOKEN)] == Missed(s, req).log;
    assert Next(c, s2, Run(req, i)) == Missed(s, req);
    Go(c, s2, req, i, Missed(s, req), m);
    Through(c, s, m, s2, Missed(s, req));
  }

  lemma {:induction false} BlankIsRejected(c: Crypto, row: Identity, at: nat)
    ensures VerifyPlan(c, row, "", at) == Reject
  {
    assert NormalizeCode("") == "";
  }

  lemma {:induction false} CountingBoth(c: Crypto, s: State, req: Req, wrong: nat, at: nat, m: nat)
    requires Live(s.db, wrong, at) && wrong < 4 && InFlight(s, TOKEN) <= m
    requires req in s.tasks && s.tasks[req] == CountAttempt(TOKEN, ID, s.db.identities[ID])
    ensures Can(c, s, m, Counted(s, req))
  {
    hide Can, InFlight;
    var i := In("", at);
    var row, ch := s.db.identities[ID], s.db.challenges[TOKEN];
    var s1 := s.(tasks := s.tasks[req := CountFailure(ID, row)],
                 db := s.db.(challenges := s.db.challenges[TOKEN := ch.(attempts := ch.attempts + 1)]));
    assert Next(c, s, Run(req, i)) == s1;
    Go(c, s, req, i, s1, m);
    FlightMoves(s, s1, req, s1.tasks[req]);
    assert Next(c, s1, Run(req, i)) == Counted(s, req);
    Go(c, s1, req, i, Counted(s, req), m);
    Through(c, s, m, s1, Counted(s, req));
  }

  lemma {:induction false} MissedTried(s: State, req: Req)
    requires ID in s.db.identities
    ensures Tried(Missed(s, req).log, TOKEN) == Tried(s.log, TOKEN) + 1
  {
    var log := Missed(s, req).log;
    assert log[..|log| - 1] == s.log + [Loaded(req, ID, s.db.identities[ID])];
    assert (s.log + [Loaded(req, ID, s.db.identities[ID])])[..|s.log|] == s.log;
  }

  /** A request that arrives, misses and is counted. */
  function Tries(s: State, req: Req): State
    requires ID in s.db.identities && TOKEN in s.db.challenges
  {
    Counted(Missed(Past(s, req), req), req)
  }

  lemma {:induction false} Trying(c: Crypto, s: State, req: Req, wrong: nat, at: nat, m: nat)
    requires Live(s.db, wrong, at) && wrong < 4 && InFlight(s, TOKEN) == 0 && m >= 1 && req !in s.tasks
    ensures Can(c, s, m, Tries(s, req)) && InFlight(Tries(s, req), TOKEN) == 0
    ensures Live(Tries(s, req).db, wrong + 1, at) && Tried(Tries(s, req).log, TOKEN) == Tried(s.log, TOKEN) + 1
  {
    hide Can, InFlight, Tried;
    var s1 := Past(s, req);
    Passing(c, s, req, wrong, at, m);
    FlightMoves(s, s1, req, PAST_CHECK);
    var s2 := Missed(s1, req);
    Missing(c, s1, req, wrong, at, m);
    FlightMoves(s1, s2, req, s2.tasks[req]);
    MissedTried(s1, req);
    Through(c, s, m, s1, s2);
    CountingBoth(c, s2, req, wrong, at, m);
    Through(c, s, m, s2, Tries(s, req));
    FlightMoves(s, Tries(s, req), req, Task.Done);
    assert Tries(s, req).tasks == s.tasks[req := Task.Done];
  }

  /** The challenge with four attempts counted, and no request numbered seven or more. */
  predicate Ripe(s: State, at: nat) {
    Live(s.db, 4, at) && InFlight(s, TOKEN) == 0 && Tried(s.log, TOKEN) == 4 && forall r :: r in s.tasks ==> r < 7
  }

  lemma {:induction false} FourTries(c: Crypto, s: State, at: nat, m: nat) returns (s': State)
    requires Live(s.db, 0, at) && InFlight(s, TOKEN) == 0 && Tried(s.log, TOKEN) == 0 && m >= 1 && forall r :: r in s.tasks ==> r < 3
    ensures Can(c, s, m, s') && Ripe(s', at)
  {
    hide Can, InFlight, Tried, Live;
    LiveHas(s.db, 0, at);
    Trying(c, s, 3, 0, at, m);
    var s1 := Tries(s, 3);
    LiveHas(s1.db, 1, at);
    Trying(c, s1, 4, 1, at, m);
    var s2 := Tries(s1, 4);
    Through(c, s, m, s1, s2);
    LiveHas(s2.db, 2, at);
    Trying(c, s2, 5, 2, at, m);
    var s3 := Tries(s2, 5);
    Through(c, s, m, s2, s3);
    LiveHas(s3.db, 3, at);
    Trying(c, s3, 6, 3, at, m);
    s' := Tries(s3, 6);
    Through(c, s, m, s3, s');
  }

  lemma {:induction false} LiveHas(db: Db, wrong: nat, at: nat)
    requires Live(db, wrong, at)
    ensures ID in db.identities && TOKEN in db.challenges
  {
  }

  /** Requests seven up to seven plus n pass the check before any of them is counted. */
  function Crowd(s: State, n: nat): State { if n == 0 then s else Past(Crowd(s, n - 1), 7 + n - 1) }

  lemma {:induction false} Crowding(c: Crypto, s: State, n: nat, at: nat, m: nat)
    requires Ripe(s, at) && n <= m
    ensures Can(c, s, m, Crowd(s, n)) && InFlight(Crowd(s, n), TOKEN) <= n
    ensures forall r :: r in Crowd(s, n).tasks ==> r < 7 + n
    ensures Crowd(s, n) == s.(tasks := Crowd(s, n).tasks) && Waits(Crowd(s, n), 7, 7 + n)
    decreases n
  {
    hide Can, InFlight, Tried, Live;
    if n == 0 {
      Stay(c, s, m);
    } else {
      Crowding(c, s, n - 1, at, m);
      var s1 := Crowd(s, n - 1);
      Passing(c, s1, 7 + n - 1, 4, at, m);
      FlightMoves(s1, Crowd(s, n), 7 + n - 1, PAST_CHECK);
      Through(c, s, m, s1, Crowd(s, n));
    }
  }

  /** These requests have passed the check. */
  predicate Waits(s: State, from: Req, to: Req) { forall r :: from <= r < to ==> r in s.tasks && s.tasks[r] == PAST_CHECK }

  /** The first n of m waiting requests have missed. */
  ghost predicate Rushed(c: Crypto, s: State, n: nat, m: nat, s': State) {
    && Can(c, s, m, s') && InFlight(s', TOKEN) <= m && s'.db == s.db && Tried(s'.log, TOKEN) == Tried(s.log, TOKEN) + n
    && Waits(s', 7 + n, 7 + m)
  }

  lemma {:induction false} Rushing(c: Crypto, s: State, n: nat, at: nat, m: nat) returns (s': State)
    requires Live(s.db, 4, at) && InFlight(s, TOKEN) <= m && n <= m && Waits(s, 7, 7 + m)
    ensures Rushed(c, s, n, m, s')
    decreases n
  {
    hide Can, InFlight, Tried, Live, Waits;
    if n == 0 {
      Stay(c, s, m);
      s' := s;
    } else {
      var s1 := Rushing(c, s, n - 1, at, m);
      OneMisses(c, s1, 7 + n - 1, at, m);
      s' := Missed(s1, 7 + n - 1);
      Through(c, s, m, s1, s');
    }
  }

  lemma {:induction false} OneMisses(c: Crypto, s: State, req: Req, at: nat, m: nat)
    requires Live(s.db, 4, at) && InFlight(s, TOKEN) <= m && Waits(s, req, 7 + m) && 7 <= req < 7 + m
    ensures ID in s.db.identities && Can(c, s, m, Missed(s, req)) && InFlight(Missed(s, req), TOKEN) <= m
    ensures Tried(Missed(s, req).log, TOKEN) == Tried(s.log, TOKEN) + 1 && Waits(Missed(s, req), req + 1, 7 + m)
  {
    LiveHas(s.db, 4, at);
    hide Can, InFlight, Tried, Live;
    Missing(c, s, req, 4, at, m);
    FlightMoves(s, Missed(s, req), req, Missed(s, req).tasks[req]);
    MissedTried(s, req);
  }

  lemma {:induction false} AddEvent(log: seq<Event>, e: Event)
    requires !e.Wrong?
    ensures Tried(log + [e], TOKEN) == Tried(log, TOKEN)
  {
    assert (log + [e])[..|log|] == log;
  }

  lemma {:induction false} NothingTried(secret: string, k: nat, at: nat)
    ensures var s := Challenged(secret, k, at);
            Live(s.db, 0, at) && InFlight(s, TOKEN) == 0 && Tried(s.log, TOKEN) == 0 && forall r :: r in s.tasks ==> r < 3
  {
    hide InFlight, Tried;
    var s := Challenged(secret, k, at);
    Calm(s);
    var row := OnRow(secret, k);
    var a := [Confirmed(1, ID, 1, k, true)];
    assert Tried([], TOKEN) == 0 by { NoEvents(); }
    AddEvent([], a[0]);
    AddEvent(a, Loaded(2, ID, row));
    AddEvent(a + [Loaded(2, ID, row)], Passed(2, USER, ID, row));
    Assoc(a, [Loaded(2, ID, row)], [Passed(2, USER, ID, row)]);
    AddEvent(a + [Loaded(2, ID, row)] + [Passed(2, USER, ID, row)], Issued(2, TOKEN, USER, ID));
    assert [] + [a[0]] == a;
  }

  lemma {:induction false} NoEvents()
    ensures Tried([], TOKEN) == 0
  {
  }

  /** For every m of at least one: an interleaving from the empty database, never with more than m
      requests in flight against the challenge, in which 4 + m wrong codes are checked against it
      and the identity is not locked. */
  lemma {:induction false} FourMore(c: Crypto, secret: string, code: string, at: nat, m: nat) returns (actions: seq<Action>)
    requires Confirms(c, secret, code, at) && m >= 1
    ensures Within(c, START, actions, TOKEN, m) && Tried(RunAll(c, actions).log, TOKEN) == 4 + m
    ensures Live(RunAll(c, actions).db, 4, at)
  {
    hide InFlight, Tried, Live, Within, RunFrom, ConfirmStep, Challenged;
    var k := ConfirmStep(c, NEW_ROW.(secret := Some(secret)), code, at).value;
    var s0 := Challenged(secret, k, at);
    Prepared(c, secret, code, at, m, k);
    NothingTried(secret, k, at);
    var s1 := FourTries(c, s0, at, m);
    Through(c, START, m, s0, s1);
    Crowding(c, s1, m, at, m);
    var s2 := Crowd(s1, m);
    Through(c, START, m, s1, s2);
    var s3 := Rushing(c, s2, m, at, m);
    Through(c, START, m, s2, s3);
    actions :| RunFrom(c, START, actions) == s3 && Within(c, START, actions, TOKEN, m);
  }

  /** Every challenge takes at most five wrong codes, in all interleavings with at most `m` requests
      in flight against it. */
  ghost predicate CapHolds(c: Crypto, m: nat) {
    forall actions: seq<Action>, token: Token :: Within(c, START, actions, token, m) ==>
      Tried(RunAll(c, actions).log, token) <= 5
  }

  /** The cap of five holds if and only if at most one request is in flight at a time. */
  lemma {:induction false} CapHoldsIff(c: Crypto, secret: string, code: string, at: nat, m: nat)
    requires Confirms(c, secret, code, at)
    ensures CapHolds(c, m) <==> m <= 1
  {
    hide Within, RunAll, Tried, Confirms;
    if m <= 1 {
      forall actions: seq<Action>, token: Token | Within(c, START, actions, token, m)
        ensures Tried(RunAll(c, actions).log, token) <= 5
      {
        AtMostFourMore(c, actions, token, m);
      }
    } else {
      var actions := FourMore(c, secret, code, at, m);
      assert Within(c, START, actions, TOKEN, m);
    }
  }
}
