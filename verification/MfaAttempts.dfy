/** The attempt cap of a challenge under interleaving: its check and its increment are two
    statements, so the cap of five loosens by one for every further request between them. */
module MfaAttempts {
  import opened Mfa
  import opened MfaInterleaving
  import opened MfaRedemption

  // ---------------------------------------------------------------- requests between check and count

  /** Past the attempt check, the code not checked yet. */
  predicate Waiting(task: Task, token: Token) {
    (task.ReadUser? || task.ReadIdentity? || task.CheckCode?) && task.token == token
  }

  /** A wrong code checked, the attempt not counted yet. */
  predicate Counting(task: Task, token: Token) { task.CountAttempt? && task.token == token }

  function WaitingSet(s: State, token: Token): set<Req> { set r | r in s.tasks && Waiting(s.tasks[r], token) }

  function CountingSet(s: State, token: Token): set<Req> { set r | r in s.tasks && Counting(s.tasks[r], token) }

  /** How many requests are between the check and the count of one challenge. */
  function InFlight(s: State, token: Token): nat { |WaitingSet(s, token) + CountingSet(s, token)| }

  lemma {:induction false} InFlightIs(s: State, token: Token)
    ensures InFlight(s, token) == |WaitingSet(s, token)| + |CountingSet(s, token)|
  {
    var a, b := WaitingSet(s, token), CountingSet(s, token);
    forall r | r in a ensures r !in b {
      assert Waiting(s.tasks[r], token);
    }
    assert a !! b;
  }

  /** Wrong codes checked against the challenge. */
  function Tried(log: seq<Event>, token: Token): nat {
    if log == [] then 0
    else Tried(log[..|log| - 1], token) + if log[|log| - 1].Wrong? && log[|log| - 1].token == token then 1 else 0
  }

  /** While a challenge exists, its counter and the attempts not counted yet make up the wrong codes;
      before it is issued there are none. */
  predicate Consistent(s: State, token: Token) {
    && (token in s.db.challenges ==> token in s.issuedTo)
    && (token in s.db.challenges ==> s.db.challenges[token].attempts + |CountingSet(s, token)| == Tried(s.log, token))
    && (token !in s.issuedTo ==> Tried(s.log, token) == 0 && WaitingSet(s, token) == {} && CountingSet(s, token) == {})
  }

  // ---------------------------------------------------------------- one statement

  /** How one statement of a request moves it with respect to a challenge. */
  lemma {:induction false} ProgramMoves(c: Crypto, s: State, task: Task, i: Input, token: Token)
    ensures var (eff, task') := Program(c, s, task, i);
            && (Waiting(task', token) && !Waiting(task, token) ==>
                  eff == Quiet && token in s.db.challenges && s.db.challenges[token].attempts < 5)
            && (Counting(task', token) <==> eff == Miss(token))
            && (eff == Miss(token) ==> Waiting(task, token) && !Waiting(task', token))
            && (eff == Attempt(token) <==> Counting(task, token))
            && (eff.Issue? ==> eff.token !in s.issuedTo)
  {
    hide VerifyPlan, StepFresh, IssuedFresh, CheckGates;
  }

  lemma {:induction false} TriedAfter(s: State, req: Req, e: Effect, token: Token)
    ensures Tried(Do(s, req, e).log, token) == Tried(s.log, token) + if e == Miss(token) then 1 else 0
  {
    hide Do, Epoch;
    LogIs(s, req, e);
    var log' := Do(s, req, e).log;
    if NewEvent(s, req, e).Some? {
      assert log'[..|log'| - 1] == s.log && log'[|log'| - 1] == NewEvent(s, req, e).value;
    } else {
      assert log' == s.log;
    }
  }

  lemma {:induction false} CounterAfter(s: State, req: Req, e: Effect, token: Token)
    requires token in Do(s, req, e).db.challenges
    ensures var n := Do(s, req, e).db.challenges[token].attempts;
            if e.Issue? && e.token == token then n == 0
            else token in s.db.challenges && n == s.db.challenges[token].attempts + if e == Attempt(token) then 1 else 0
  {
    hide StepFresh, Epoch;
  }

  /** The two sets after one request has moved. */
  lemma {:induction false} SetsMove(s: State, s': State, req: Req, task': Task, token: Token)
    requires s'.tasks == s.tasks[req := task']
    ensures var a, b := WaitingSet(s, token), WaitingSet(s', token); b == if Waiting(task', token) then a + {req} else a - {req}
    ensures var a, b := CountingSet(s, token), CountingSet(s', token); b == if Counting(task', token) then a + {req} else a - {req}
  {
  }

  lemma {:induction false} RunConsistent(c: Crypto, s: State, req: Req, i: Input, token: Token)
    requires Consistent(s, token) && req in s.tasks
    ensures Consistent(Next(c, s, Run(req, i)), token)
  {
    hide Program, Do, Waiting, Counting, WaitingSet, CountingSet, Tried;
    var task := s.tasks[req];
    var (eff, task') := Program(c, s, task, i);
    var s' := Next(c, s, Run(req, i));
    ProgramMoves(c, s, task, i, token);
    TriedAfter(s, req, eff, token);
    LogIs(s, req, eff);
    ChallengesAre(s, req, eff);
    SetsMove(s, s', req, task', token);
    InSets(s, req, token);
    InSets(s', req, token);
    if token in s'.db.challenges {
      CounterAfter(s, req, eff, token);
    }
  }

  lemma {:induction false} InSets(s: State, req: Req, token: Token)
    requires req in s.tasks
    ensures req in WaitingSet(s, token) <==> Waiting(s.tasks[req], token)
    ensures req in CountingSet(s, token) <==> Counting(s.tasks[req], token)
  {
  }

  /** Wrong codes checked and codes still to be checked, as against the requests in flight. */
  lemma {:induction false} RunBound(c: Crypto, s: State, req: Req, i: Input, token: Token, m: nat)
    requires Consistent(s, token) && req in s.tasks && Tried(s.log, token) + |WaitingSet(s, token)| <= 4 + m
    requires InFlight(Next(c, s, Run(req, i)), token) <= m
    ensures var s' := Next(c, s, Run(req, i)); Tried(s'.log, token) + |WaitingSet(s', token)| <= 4 + m
  {
    hide Program, Do, Waiting, Counting, WaitingSet, CountingSet, Tried, InFlight;
    var task := s.tasks[req];
    var (eff, task') := Program(c, s, task, i);
    var s' := Next(c, s, Run(req, i));
    ProgramMoves(c, s, task, i, token);
    TriedAfter(s, req, eff, token);
    SetsMove(s, s', req, task', token);
    InSets(s, req, token);
    InSets(s', req, token);
    InFlightIs(s', token);
  }

  // ---------------------------------------------------------------- whole runs

  /** At no time of the run are more than `m` requests in flight against the challenge. */
  predicate Within(c: Crypto, s: State, actions: seq<Action>, token: Token, m: nat) {
    actions == []
    || (Within(c, s, actions[..|actions| - 1], token, m) && InFlight(RunFrom(c, s, actions), token) <= m)
  }

  lemma {:induction false} OtherActions(c: Crypto, s: State, a: Action, token: Token)
    requires a.Run? ==> a.req !in s.tasks
    ensures var s' := Next(c, s, a);
            && WaitingSet(s', token) == WaitingSet(s, token) && CountingSet(s', token) == CountingSet(s, token)
            && s'.log == s.log && s'.db.challenges == s.db.challenges && s'.issuedTo == s.issuedTo
  {
  }

  lemma {:induction false} AttemptsBounded(c: Crypto, actions: seq<Action>, token: Token, m: nat)
    requires Within(c, START, actions, token, m)
    ensures var s := RunAll(c, actions);
            Consistent(s, token) && Tried(s.log, token) + |WaitingSet(s, token)| <= 4 + m
    decreases |actions|
  {
    hide Next, Tried, WaitingSet, CountingSet, InFlight, Consistent;
    if actions == [] {
      AtStart(token);
    } else {
      var n := |actions| - 1;
      AttemptsBounded(c, actions[..n], token, m);
      var s := RunAll(c, actions[..n]);
      var a := actions[n];
      if a.Run? && a.req in s.tasks {
        RunConsistent(c, s, a.req, a.input, token);
        RunBound(c, s, a.req, a.input, token, m);
      } else {
        OtherActions(c, s, a, token);
        SameConsistent(s, Next(c, s, a), token);
      }
    }
  }

  lemma {:induction false} SameConsistent(s: State, s': State, token: Token)
    requires Consistent(s, token)
    requires WaitingSet(s', token) == WaitingSet(s, token) && CountingSet(s', token) == CountingSet(s, token)
    requires s'.log == s.log && s'.db.challenges == s.db.challenges && s'.issuedTo == s.issuedTo
    ensures Consistent(s', token)
  {
  }

  lemma {:induction false} AtStart(token: Token)
    ensures Consistent(START, token) && Tried(START.log, token) == 0 && WaitingSet(START, token) == {}
  {
  }

  /** In every interleaving with at most `m` requests in flight against a challenge, at most 4 + m
      wrong codes are checked against it. */
  lemma {:induction false} AtMostFourMore(c: Crypto, actions: seq<Action>, token: Token, m: nat)
    requires Within(c, START, actions, token, m)
    ensures Tried(RunAll(c, actions).log, token) <= 4 + m
  {
    hide Within, RunAll, Tried, WaitingSet, Consistent;
    AttemptsBounded(c, actions, token, m);
  }
}
