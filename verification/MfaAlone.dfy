/** The statement-by-statement requests of `MfaInterleaving`, run with nothing between their
    statements, do to the tables what the whole requests do. */
module MfaAlone {
  import opened Prelude
  import opened Mfa
  import opened MfaInterleaving
  import Auth

  /** The statements of one request, one for each input, with nothing between them. */
  function Alone(c: Crypto, s: State, req: Req, inputs: seq<Input>): State
    decreases |inputs|
  {
    if inputs == [] then s else Alone(c, Next(c, s, Run(req, inputs[0])), req, inputs[1..])
  }

  /** What one statement leaves: the tables, the log, and where the request is. */
  lemma StatementIs(c: Crypto, s: State, req: Req, i: Input)
    requires req in s.tasks
    ensures var (eff, task) := Program(c, s, s.tasks[req], i); var s' := Next(c, s, Run(req, i));
            && req in s'.tasks && s'.tasks[req] == task
            && s'.db == Do(s, req, eff).db && s'.log == Do(s, req, eff).log && s'.issuedTo == Do(s, req, eff).issuedTo
            && s'.usedRows == Do(s, req, eff).usedRows
  {
    hide Program, Do;
  }

  lemma OneMore(c: Crypto, s: State, req: Req, i: Input, rest: seq<Input>)
    ensures Alone(c, s, req, [i] + rest) == Alone(c, Next(c, s, Run(req, i)), req, rest)
  {
    hide Next;
    assert ([i] + rest)[0] == i && ([i] + rest)[1..] == rest;
  }

  /** A finished request changes nothing. */
  lemma {:induction false} StaysDone(c: Crypto, s: State, req: Req, inputs: seq<Input>)
    requires req in s.tasks && s.tasks[req].Done?
    ensures var s' := Alone(c, s, req, inputs); req in s'.tasks && s'.tasks[req].Done? && s'.db == s.db && s'.log == s.log
    decreases |inputs|
  {
    hide Program, Do;
    if inputs != [] {
      StatementIs(c, s, req, inputs[0]);
      DoneIsQuiet(c, s, req, inputs[0]);
      hide Next;
      StaysDone(c, Next(c, s, Run(req, inputs[0])), req, inputs[1..]);
    }
  }

  lemma DoneIsQuiet(c: Crypto, s: State, req: Req, i: Input)
    ensures Program(c, s, Done, i) == (Quiet, Done) && Do(s, req, Quiet) == s
  {
  }

  // ---------------------------------------------------------------- complete_mfa_login

  /** The request ended with a session for this user, or without one. */
  predicate Ended(s: State, s': State, req: Req, session: Option<Id>) {
    && req in s'.tasks && s'.tasks[req].Done? && s.log <= s'.log
    && if session.Some? then
         |s'.log| > |s.log| && s'.log[|s'.log| - 1].Minted? && s'.log[|s'.log| - 1].user == session.value
       else forall k :: |s.log| <= k < |s'.log| ==> !s'.log[k].Minted?
  }

  function SessionOf(d: Auth.Done): Option<Id> { if d.outcome.Session? then Some(d.outcome.user) else None }

  /** What a request leaves after a statement that adds these events. */
  predicate Moved(s: State, s': State, req: Req, task: Task, db: Db, events: seq<Event>) {
    req in s'.tasks && s'.tasks[req] == task && s'.db == db && s'.log == s.log + events
  }

  lemma CountAttemptIs(c: Crypto, s: State, req: Req, token: Token, id: Id, row: Identity, j: Input)
    requires req in s.tasks && s.tasks[req] == CountAttempt(token, id, row)
    ensures Moved(s, Next(c, s, Run(req, j)), req, CountFailure(id, row), IncrementAttempts(s.db, token), [])
  {
    hide IncrementAttempts;
    StatementIs(c, s, req, j);
    hide Next;
    AppendNil(s.log);
  }

  lemma CountFailureIs(c: Crypto, s: State, req: Req, id: Id, row: Identity, j: Input)
    requires req in s.tasks && s.tasks[req] == CountFailure(id, row)
    ensures Moved(s, Next(c, s, Run(req, j)), req, Task.Done, Auth.RegisterFailed(s.db, id, row, j.now), [])
  {
    StatementIs(c, s, req, j);
    hide Next;
    AppendNil(s.log);
  }

  lemma RedeemIs(c: Crypto, s: State, req: Req, token: Token, user: Id, id: Id, f: Factor, at: nat, j: Input)
    requires req in s.tasks && s.tasks[req] == Redeem(token, user, id, f, at) && token in s.db.challenges
    ensures Moved(s, Next(c, s, Run(req, j)), req, ClearFailures(token, user, id, f, at), DeleteChallenge(s.db, token),
                  [Redeemed(req, token, s.db.challenges[token].user)])
  {
    StatementIs(c, s, req, j);
  }

  lemma ClearIs(c: Crypto, s: State, req: Req, token: Token, user: Id, id: Id, f: Factor, at: nat, j: Input)
    requires req in s.tasks && s.tasks[req] == ClearFailures(token, user, id, f, at)
    ensures Moved(s, Next(c, s, Run(req, j)), req, MintMfa(token, user, id, f, at), Auth.ClearFailed(s.db, id), [])
  {
    StatementIs(c, s, req, j);
    hide Next;
    AppendNil(s.log);
  }

  lemma MintIs(c: Crypto, s: State, req: Req, token: Token, user: Id, id: Id, f: Factor, at: nat, j: Input)
    requires req in s.tasks && s.tasks[req] == MintMfa(token, user, id, f, at)
    ensures Moved(s, Next(c, s, Run(req, j)), req, Task.Done, s.db, [Minted(req, user, id, ByMfa(token, f, at))])
  {
    StatementIs(c, s, req, j);
  }

  /** After the code was checked and was wrong: the attempt and the failure are counted. */
  lemma WrongTail(c: Crypto, s: State, req: Req, token: Token, id: Id, row: Identity, j: Input)
    requires req in s.tasks && s.tasks[req] == CountAttempt(token, id, row)
    ensures var s' := Alone(c, s, req, [j, j, j]);
            && s'.db == Auth.RegisterFailed(IncrementAttempts(s.db, token), id, row, j.now)
            && Ended(s, s', req, None)
  {
    hide Next, Program, Do, IncrementAttempts, Auth.RegisterFailed;
    var s1 := Next(c, s, Run(req, j));
    CountAttemptIs(c, s, req, token, id, row, j);
    CountFailureIs(c, s1, req, id, row, j);
    OneMore(c, s, req, j, [j, j]);
    OneMore(c, s1, req, j, [j]);
    StaysDone(c, Next(c, s1, Run(req, j)), req, [j]);
    assert [j, j, j] == [j] + [j, j] && [j, j] == [j] + [j];
  }

  /** After it was right: the challenge goes, the failures are cleared, the session is minted. */
  lemma RightTail(c: Crypto, s: State, req: Req, token: Token, user: Id, id: Id, f: Factor, at: nat, j: Input)
    requires req in s.tasks && s.tasks[req] == Redeem(token, user, id, f, at) && token in s.db.challenges
    ensures var s' := Alone(c, s, req, [j, j, j]);
            && s'.db == Auth.ClearFailed(DeleteChallenge(s.db, token), id)
            && Ended(s, s', req, Some(user))
  {
    hide Next, Program, Do, DeleteChallenge, Auth.ClearFailed;
    var s1 := Next(c, s, Run(req, j));
    var s2 := Next(c, s1, Run(req, j));
    RedeemIs(c, s, req, token, user, id, f, at, j);
    ClearIs(c, s1, req, token, user, id, f, at, j);
    MintIs(c, s2, req, token, user, id, f, at, j);
    OneMore(c, s, req, j, [j, j]);
    OneMore(c, s1, req, j, [j]);
    StaysDone(c, Next(c, s2, Run(req, j)), req, []);
    assert [j, j, j] == [j] + [j, j] && [j, j] == [j] + [j] && [j] == [j] + [];
    OneMore(c, s2, req, j, []);
  }

  /** Checking the code mints nothing, leaves the challenges, and does what `verify` does. */
  lemma CheckedIs(c: Crypto, s: State, req: Req, id: Id, row: Identity, code: string, i: Input)
    ensures var (eff, factor) := VerifyEffect(c, s, id, row, code, i); var s' := Do(s, req, eff);
            && (s'.db, factor.Some?) == VerifySpec(c, s.db, id, row, code, i.row, i.now)
            && s'.db.challenges == s.db.challenges && s.log <= s'.log && |s'.log| <= |s.log| + 1
            && (|s'.log| > |s.log| ==> !s'.log[|s.log|].Minted?)
            && (factor.None? ==> eff == Quiet)
  {
    hide VerifyPlan;
    EffectIsVerify(c, s, req, id, row, code, i);
  }

  /** The log grew, by events other than a session. */
  predicate NothingMinted(s: State, s': State) {
    s.log <= s'.log && forall k :: |s.log| <= k < |s'.log| ==> !s'.log[k].Minted?
  }

  /** Where checking the code leads. */
  predicate CheckedTo(s: State, s': State, req: Req, token: Token, user: Id, id: Id, row: Identity, at: nat, ok: bool) {
    && req in s'.tasks && NothingMinted(s, s') && s'.db.challenges == s.db.challenges
    && if ok then
         var task := s'.tasks[req]; task.Redeem? && task == Redeem(token, user, id, task.factor, at)
       else s'.tasks[req] == CountAttempt(token, id, row)
  }

  lemma CheckProgram(c: Crypto, s: State, token: Token, code: string, user: Id, m: Member, row: Identity, i: Input)
    ensures var (eff, factor) := VerifyEffect(c, s, m.identity, row, code, i);
            Program(c, s, CheckCode(token, code, user, m, row), i)
            == if CheckGates(m, row, i.now).Some? then (Quiet, Task.Done)
               else if factor.Some? then (eff, Redeem(token, user, m.identity, factor.value, i.now))
               else (Miss(token), CountAttempt(token, m.identity, row))
  {
    hide VerifyEffect, CheckGates;
  }

  lemma LogOnly(s: State, req: Req, token: Token)
    ensures Do(s, req, Quiet) == s
    ensures Do(s, req, Miss(token)).db == s.db && Do(s, req, Miss(token)).log == s.log + [Wrong(req, token)]
  {
  }

  lemma CheckCodeIs(c: Crypto, s: State, req: Req, token: Token, code: string, user: Id, m: Member, row: Identity, i: Input)
    requires req in s.tasks && s.tasks[req] == CheckCode(token, code, user, m, row)
    ensures var s' := Next(c, s, Run(req, i));
            if CheckGates(m, row, i.now).Some? then Moved(s, s', req, Task.Done, s.db, [])
            else
              var (db, ok) := VerifySpec(c, s.db, m.identity, row, code, i.row, i.now);
              s'.db == db && CheckedTo(s, s', req, token, user, m.identity, row, i.now, ok)
  {
    hide Next, Program, Do, VerifyEffect, VerifySpec, CheckGates;
    StatementIs(c, s, req, i);
    CheckedIs(c, s, req, m.identity, row, code, i);
    CheckProgram(c, s, token, code, user, m, row, i);
    LogOnly(s, req, token);
    AppendNil(s.log);
    var (eff, factor) := VerifyEffect(c, s, m.identity, row, code, i);
    if CheckGates(m, row, i.now).None? {
      if factor.Some? {
        assert Program(c, s, s.tasks[req], i) == (eff, Redeem(token, user, m.identity, factor.value, i.now));
      } else {
        assert Program(c, s, s.tasks[req], i) == (Miss(token), CountAttempt(token, m.identity, row));
      }
    }
  }

  lemma EndedLater(s: State, s1: State, s': State, req: Req, session: Option<Id>)
    requires NothingMinted(s, s1) && Ended(s1, s', req, session)
    ensures Ended(s, s', req, session)
  {
  }

  /** From the checked identity on. */
  lemma CodeTail(k: Auth.Checks, s: State, req: Req, token: Token, code: string, user: Id, m: Member, row: Identity,
                 i: Input, j: Input)
    requires req in s.tasks && s.tasks[req] == CheckCode(token, code, user, m, row) && token in s.db.challenges
    ensures var s' := Alone(k.crypto, s, req, [i, j, j, j]);
            var (db, ok) := VerifySpec(k.crypto, s.db, m.identity, row, code, i.row, i.now);
            if CheckGates(m, row, i.now).Some? then s'.db == s.db && Ended(s, s', req, None)
            else if ok then
              s'.db == Auth.ClearFailed(DeleteChallenge(db, token), m.identity) && Ended(s, s', req, Some(user))
            else
              s'.db == Auth.RegisterFailed(IncrementAttempts(db, token), m.identity, row, j.now) && Ended(s, s', req, None)
  {
    hide Next, Program, Do, VerifySpec, CheckGates, Auth.RegisterFailed, Auth.ClearFailed, IncrementAttempts, DeleteChallenge,
         NothingMinted, Ended;
    var s1 := Next(k.crypto, s, Run(req, i));
    OneMore(k.crypto, s, req, i, [j, j, j]);
    assert [i, j, j, j] == [i] + [j, j, j];
    CheckCodeIs(k.crypto, s, req, token, code, user, m, row, i);
    if CheckGates(m, row, i.now).Some? {
      StaysDone(k.crypto, s1, req, [j, j, j]);
      EndedSame(s, Alone(k.crypto, s1, req, [j, j, j]), req);
    } else {
      var task := s1.tasks[req];
      if task.Redeem? {
        RightTail(k.crypto, s1, req, token, user, m.identity, task.factor, i.now, j);
        EndedLater(s, s1, Alone(k.crypto, s1, req, [j, j, j]), req, Some(user));
      } else {
        WrongTail(k.crypto, s1, req, token, m.identity, row, j);
        EndedLater(s, s1, Alone(k.crypto, s1, req, [j, j, j]), req, None);
      }
    }
  }

  lemma EndedSame(s: State, s': State, req: Req)
    requires req in s'.tasks && s'.tasks[req].Done? && s'.log == s.log
    ensures Ended(s, s', req, None)
  {
  }

  lemma ReadChallengeIs(c: Crypto, s: State, req: Req, token: Token, code: string, i: Input)
    requires req in s.tasks && s.tasks[req] == ReadChallenge(token, code)
    ensures var s' := Next(c, s, Run(req, i));
            if token !in s.db.challenges || s.db.challenges[token].expires <= i.now then Moved(s, s', req, Task.Done, s.db, [])
            else if s.db.challenges[token].attempts >= 5 then Moved(s, s', req, DropChallenge(token), s.db, [])
            else Moved(s, s', req, ReadUser(token, code, s.db.challenges[token].user), s.db, [])
  {
    StatementIs(c, s, req, i);
    hide Next;
    AppendNil(s.log);
  }

  lemma DropIs(c: Crypto, s: State, req: Req, token: Token, i: Input)
    requires req in s.tasks && s.tasks[req] == DropChallenge(token) && token in s.db.challenges
    ensures Moved(s, Next(c, s, Run(req, i)), req, Task.Done, DeleteChallenge(s.db, token),
                  [Redeemed(req, token, s.db.challenges[token].user)])
  {
    StatementIs(c, s, req, i);
  }

  lemma ReadUserIs(c: Crypto, s: State, req: Req, token: Token, code: string, user: Id, i: Input)
    requires req in s.tasks && s.tasks[req] == ReadUser(token, code, user)
    ensures var s' := Next(c, s, Run(req, i));
            if user !in s.db.users then Moved(s, s', req, Task.Done, s.db, [])
            else Moved(s, s', req, ReadIdentity(token, code, user, s.db.users[user]), s.db, [])
  {
    StatementIs(c, s, req, i);
    hide Next;
    AppendNil(s.log);
  }

  lemma ReadIdentityIs(c: Crypto, s: State, req: Req, token: Token, code: string, user: Id, m: Member, i: Input)
    requires req in s.tasks && s.tasks[req] == ReadIdentity(token, code, user, m)
    ensures var s' := Next(c, s, Run(req, i));
            if m.identity !in s.db.identities then Moved(s, s', req, Task.Done, s.db, [])
            else
              var row := s.db.identities[m.identity];
              Moved(s, s', req, CheckCode(token, code, user, m, row), s.db, [Loaded(req, m.identity, row)])
  {
    StatementIs(c, s, req, i);
    hide Next;
    AppendNil(s.log);
  }

  /** From the member on: the identity is read and the code checked. */
  lemma IdentityTail(k: Auth.Checks, t: Auth.Tables, s: State, req: Req, token: Token, code: string, user: Id, i: Input, j: Input)
    requires s.db == t.db && req in s.tasks && user in t.db.users
    requires s.tasks[req] == ReadIdentity(token, code, user, t.db.users[user])
    requires token in t.db.challenges && t.db.challenges[token].user == user
    requires i.now < t.db.challenges[token].expires && t.db.challenges[token].attempts < 5
    ensures var s' := Alone(k.crypto, s, req, [i, i, j, j, j]);
            var d := Auth.MfaLoginSpec(k, t, token, code, i.row, i.now, j.now);
            s'.db == d.t.db && Ended(s, s', req, SessionOf(d))
  {
    hide Next, Program, Do, VerifyEffect, VerifySpec, CheckGates, Auth.RegisterFailed, Auth.ClearFailed, IncrementAttempts, DeleteChallenge;
    var c := k.crypto;
    var m := t.db.users[user];
    var s1 := Next(c, s, Run(req, i));
    ReadIdentityIs(c, s, req, token, code, user, m, i);
    assert [i, i, j, j, j] == [i] + [i, j, j, j];
    OneMore(c, s, req, i, [i, j, j, j]);
    if m.identity !in t.db.identities {
      StaysDone(c, s1, req, [i, j, j, j]);
    } else {
      CodeTail(k, s1, req, token, code, user, m, t.db.identities[m.identity], i, j);
    }
  }

  /** Without a live challenge of a known member: no session, and the challenge goes if it is out of
      attempts. */
  lemma NoMember(k: Auth.Checks, t: Auth.Tables, s: State, req: Req, token: Token, code: string, i: Input, j: Input)
    requires s.db == t.db && req in s.tasks && s.tasks[req] == ReadChallenge(token, code)
    requires token in t.db.challenges && i.now < t.db.challenges[token].expires && t.db.challenges[token].attempts < 5 ==>
               t.db.challenges[token].user !in t.db.users
    ensures var s' := Alone(k.crypto, s, req, [i, i, i, i, j, j, j]);
            var d := Auth.MfaLoginSpec(k, t, token, code, i.row, i.now, j.now);
            s'.db == d.t.db && Ended(s, s', req, SessionOf(d))
  {
    hide Next, Program, Do, VerifySpec, CheckGates, DeleteChallenge;
    var c := k.crypto;
    var s1 := Next(c, s, Run(req, i));
    var s2 := Next(c, s1, Run(req, i));
    assert [i, i, i, i, j, j, j] == [i] + [i, i, i, j, j, j];
    assert [i, i, i, j, j, j] == [i] + [i, i, j, j, j];
    OneMore(c, s, req, i, [i, i, i, j, j, j]);
    OneMore(c, s1, req, i, [i, i, j, j, j]);
    ReadChallengeIs(c, s, req, token, code, i);
    if s1.tasks[req].Done? {
      StaysDone(c, s1, req, [i, i, i, j, j, j]);
    } else {
      if s1.tasks[req].DropChallenge? {
        DropIs(c, s1, req, token, i);
      } else {
        ReadUserIs(c, s1, req, token, code, t.db.challenges[token].user, i);
      }
      StaysDone(c, s2, req, [i, i, j, j, j]);
    }
  }

  lemma EndedSoon(s: State, s1: State, s': State, req: Req, session: Option<Id>)
    requires s1.log == s.log && Ended(s1, s', req, session)
    ensures Ended(s, s', req, session)
  {
  }

  /** The first two statements find the challenge and its member. */
  lemma TwoReads(c: Crypto, s: State, req: Req, token: Token, code: string, i: Input, j: Input) returns (s2: State)
    requires req in s.tasks && s.tasks[req] == ReadChallenge(token, code)
    requires token in s.db.challenges && i.now < s.db.challenges[token].expires && s.db.challenges[token].attempts < 5
    requires s.db.challenges[token].user in s.db.users
    ensures s2.db == s.db && s2.log == s.log && req in s2.tasks
    ensures var user := s.db.challenges[token].user; s2.tasks[req] == ReadIdentity(token, code, user, s.db.users[user])
    ensures Alone(c, s, req, [i, i, i, i, j, j, j]) == Alone(c, s2, req, [i, i, j, j, j])
  {
    hide Next, Program, Do;
    var s1 := Next(c, s, Run(req, i));
    s2 := Next(c, s1, Run(req, i));
    assert [i, i, i, i, j, j, j] == [i] + [i, i, i, j, j, j];
    assert [i, i, i, j, j, j] == [i] + [i, i, j, j, j];
    OneMore(c, s, req, i, [i, i, i, j, j, j]);
    OneMore(c, s1, req, i, [i, i, j, j, j]);
    ReadChallengeIs(c, s, req, token, code, i);
    ReadUserIs(c, s1, req, token, code, s.db.challenges[token].user, i);
  }

  /** Run alone, the seven statements of `complete_mfa_login` do what the whole request does. */
  lemma CompleteAlone(k: Auth.Checks, t: Auth.Tables, s: State, req: Req, token: Token, code: string, i: Input, j: Input)
    requires s.db == t.db && req in s.tasks && s.tasks[req] == ReadChallenge(token, code)
    ensures var s' := Alone(k.crypto, s, req, [i, i, i, i, j, j, j]);
            var d := Auth.MfaLoginSpec(k, t, token, code, i.row, i.now, j.now);
            s'.db == d.t.db && Ended(s, s', req, SessionOf(d))
  {
    hide Next, Program, Do, Auth.MfaLoginSpec, Ended;
    if token in t.db.challenges && i.now < t.db.challenges[token].expires && t.db.challenges[token].attempts < 5
       && t.db.challenges[token].user in t.db.users {
      var s2 := TwoReads(k.crypto, s, req, token, code, i, j);
      IdentityTail(k, t, s2, req, token, code, t.db.challenges[token].user, i, j);
      EndedSoon(s, s2, Alone(k.crypto, s2, req, [i, i, j, j, j]), req, SessionOf(Auth.MfaLoginSpec(k, t, token, code, i.row, i.now, j.now)));
    } else {
      NoMember(k, t, s, req, token, code, i, j);
    }
  }

  // ---------------------------------------------------------------- the other logins

  lemma LoadUserIs(c: Crypto, s: State, req: Req, user: Id, i: Input)
    requires req in s.tasks && s.tasks[req] == LoadUser(user)
    ensures var s' := Next(c, s, Run(req, i));
            if user !in s.db.users then Moved(s, s', req, Task.Done, s.db, [])
            else Moved(s, s', req, LoadForLogin(user, s.db.users[user].identity), s.db, []) && s'.issuedTo == s.issuedTo
  {
    StatementIs(c, s, req, i);
    hide Next;
    AppendNil(s.log);
  }

  lemma LoadForLoginIs(c: Crypto, s: State, req: Req, user: Id, id: Id, i: Input)
    requires req in s.tasks && s.tasks[req] == LoadForLogin(user, id)
    ensures var s' := Next(c, s, Run(req, i));
            if id !in s.db.identities then Moved(s, s', req, Task.Done, s.db, [])
            else
              var row := s.db.identities[id];
              Moved(s, s', req, Finalize(user, id, row), s.db, [Loaded(req, id, row)]) && s'.issuedTo == s.issuedTo
  {
    StatementIs(c, s, req, i);
    hide Next;
    AppendNil(s.log);
  }

  lemma FinalizeIs(c: Crypto, s: State, req: Req, user: Id, id: Id, row: Identity, i: Input)
    requires req in s.tasks && s.tasks[req] == Finalize(user, id, row)
    ensures var s' := Next(c, s, Run(req, i));
            if !i.pass then Moved(s, s', req, Task.Done, s.db, [])
            else
              var next := if row.forceChange then Task.Done else if row.mfaEnabled then PurgeOld(user, id, row) else MintPlain(user, id, row);
              Moved(s, s', req, next, s.db, [Passed(req, user, id, row)]) && s'.issuedTo == s.issuedTo
  {
    StatementIs(c, s, req, i);
    hide Next;
    AppendNil(s.log);
  }

  lemma PurgeOldIs(c: Crypto, s: State, req: Req, user: Id, id: Id, row: Identity, i: Input)
    requires req in s.tasks && s.tasks[req] == PurgeOld(user, id, row)
    ensures var s' := Next(c, s, Run(req, i));
            Moved(s, s', req, IssueChallenge(user, id, row), PurgeChallenges(s.db, i.now), []) && s'.issuedTo == s.issuedTo
  {
    hide PurgeChallenges;
    StatementIs(c, s, req, i);
    hide Next;
    AppendNil(s.log);
  }

  lemma IssueChallengeIs(c: Crypto, s: State, req: Req, user: Id, id: Id, row: Identity, i: Input)
    requires req in s.tasks && s.tasks[req] == IssueChallenge(user, id, row) && i.token !in s.issuedTo
    ensures Moved(s, Next(c, s, Run(req, i)), req, Task.Done, InsertChallenge(s.db, i.token, user, i.now + 300),
                  [Issued(req, i.token, user, id)])
  {
    hide InsertChallenge;
    StatementIs(c, s, req, i);
  }

  lemma MintPlainIs(c: Crypto, s: State, req: Req, user: Id, id: Id, row: Identity, i: Input)
    requires req in s.tasks && s.tasks[req] == MintPlain(user, id, row)
    ensures Moved(s, Next(c, s, Run(req, i)), req, Task.Done, s.db, [Minted(req, user, id, ByLogin(row))])
  {
    StatementIs(c, s, req, i);
  }

  lemma FinalizeTail(k: Auth.Checks, t: Auth.Tables, s: State, req: Req, user: Id, id: Id, row: Identity, i: Input)
    requires s.db == t.db && req in s.tasks && s.tasks[req] == Finalize(user, id, row)
    requires i.pass && i.token !in s.issuedTo && i.token !in t.issued
    ensures var s' := Alone(k.crypto, s, req, [i, i, i]); var d := Auth.Finalize(t, user, row, i.now, i.token, None);
            s'.db == d.t.db && Ended(s, s', req, SessionOf(d))
  {
    hide Next, Program, Do, PurgeChallenges, InsertChallenge, Auth.InsertChange;
    var c := k.crypto;
    var s1 := Next(c, s, Run(req, i));
    var s2 := Next(c, s1, Run(req, i));
    FinalizeIs(c, s, req, user, id, row, i);
    assert [i, i, i] == [i] + [i, i] && [i, i] == [i] + [i] && [i] == [i] + [];
    OneMore(c, s, req, i, [i, i]);
    OneMore(c, s1, req, i, [i]);
    OneMore(c, s2, req, i, []);
    if row.forceChange {
      StaysDone(c, s1, req, [i, i]);
    } else if row.mfaEnabled {
      PurgeOldIs(c, s1, req, user, id, row, i);
      IssueChallengeIs(c, s2, req, user, id, row, i);
      StaysDone(c, Next(c, s2, Run(req, i)), req, []);
    } else {
      MintPlainIs(c, s1, req, user, id, row, i);
      StaysDone(c, s2, req, [i]);
    }
  }

  /** From the member on: the identity is read and the login finished. */
  lemma LoadTail(k: Auth.Checks, t: Auth.Tables, s: State, req: Req, user: Id, allowed: bool, i: Input)
    requires s.db == t.db && req in s.tasks && user in t.db.users && s.tasks[req] == LoadForLogin(user, t.db.users[user].identity)
    requires i.token !in s.issuedTo && i.token !in t.issued
    requires t.db.users[user].identity in t.db.identities ==>
               (i.pass <==> CheckGates(t.db.users[user], t.db.identities[t.db.users[user].identity], i.now).None? && allowed)
    ensures var s' := Alone(k.crypto, s, req, [i, i, i, i]); var d := Auth.GatedLoginSpec(t, user, allowed, i.now, i.token);
            s'.db == d.t.db && Ended(s, s', req, SessionOf(d))
  {
    hide Next, Program, Do, CheckGates, Auth.Finalize, Ended;
    var c := k.crypto;
    var id := t.db.users[user].identity;
    var s1 := Next(c, s, Run(req, i));
    LoadForLoginIs(c, s, req, user, id, i);
    assert [i, i, i, i] == [i] + [i, i, i];
    OneMore(c, s, req, i, [i, i, i]);
    var s' := Alone(c, s1, req, [i, i, i]);
    if id !in t.db.identities {
      StaysDone(c, s1, req, [i, i, i]);
      AppendNil(s.log);
      EndedSame(s, s', req);
    } else if i.pass {
      FinalizeTail(k, t, s1, req, user, id, t.db.identities[id], i);
      EndedLater(s, s1, s', req, SessionOf(Auth.Finalize(t, user, t.db.identities[id], i.now, i.token, None)));
    } else {
      FinalizeIs(c, s1, req, user, id, t.db.identities[id], i);
      var s2 := Next(c, s1, Run(req, i));
      assert [i, i, i] == [i] + [i, i];
      OneMore(c, s1, req, i, [i, i]);
      StaysDone(c, s2, req, [i, i]);
      AppendNil(s1.log);
      EndedSame(s1, s', req);
      EndedLater(s, s1, s', req, None);
    }
  }

  /** Run alone, the five statements of an OTP login, an OAuth login or a tenant selection do to
      challenges and sessions what the whole request does, a login passing exactly when its member
      exists, its gates are open and the method is allowed. */
  lemma LoginAlone(k: Auth.Checks, t: Auth.Tables, s: State, req: Req, user: Id, allowed: bool, i: Input)
    requires s.db == t.db && req in s.tasks && s.tasks[req] == LoadUser(user)
    requires i.token !in s.issuedTo && i.token !in t.issued
    requires user in t.db.users && t.db.users[user].identity in t.db.identities ==>
               (i.pass <==> CheckGates(t.db.users[user], t.db.identities[t.db.users[user].identity], i.now).None? && allowed)
    ensures var s' := Alone(k.crypto, s, req, [i, i, i, i, i]); var d := Auth.GatedLoginSpec(t, user, allowed, i.now, i.token);
            s'.db == d.t.db && Ended(s, s', req, SessionOf(d))
  {
    hide Next, Program, Do, CheckGates, Auth.Finalize, Ended, NothingMinted;
    var c := k.crypto;
    var s1 := Next(c, s, Run(req, i));
    LoadUserIs(c, s, req, user, i);
    assert [i, i, i, i, i] == [i] + [i, i, i, i] && [i, i, i, i] == [i] + [i, i, i] && [i, i, i] == [i] + [i, i];
    OneMore(c, s, req, i, [i, i, i, i]);
    var s' := Alone(c, s1, req, [i, i, i, i]);
    if user !in t.db.users {
      StaysDone(c, s1, req, [i, i, i, i]);
      EndedSame(s, s', req);
    } else {
      LoadTail(k, t, s1, req, user, allowed, i);
      EndedSoon(s, s1, s', req, SessionOf(Auth.GatedLoginSpec(t, user, allowed, i.now, i.token)));
    }
  }

  // ---------------------------------------------------------------- enrollment

  lemma LoadForConfirmIs(c: Crypto, s: State, req: Req, id: Id, code: string, i: Input)
    requires req in s.tasks && s.tasks[req] == LoadForConfirm(id, code) && id in s.db.identities
    ensures var s' := Next(c, s, Run(req, i));
            Moved(s, s', req, MarkConfirm(id, s.db.identities[id], code), s.db, []) && s'.usedRows == s.usedRows
  {
    StatementIs(c, s, req, i);
    hide Next;
    AppendNil(s.log);
  }

  lemma MarkConfirmIs(c: Crypto, s: State, req: Req, id: Id, row: Identity, code: string, i: Input)
    requires req in s.tasks && s.tasks[req] == MarkConfirm(id, row, code) && id in s.db.identities
    ensures var s' := Next(c, s, Run(req, i));
            && req in s'.tasks && s'.usedRows == s.usedRows
            && match ConfirmStep(c, row, code, i.now)
               case None => s'.tasks[req].Done? && s'.db == s.db
               case Some(step) => s'.tasks[req] == TurnOn(id) && s'.db == MarkStep(s.db, id, step)
  {
    hide ConfirmStep, MarkStep;
    StatementIs(c, s, req, i);
  }

  lemma TurnOnIs(c: Crypto, s: State, req: Req, id: Id, i: Input)
    requires req in s.tasks && s.tasks[req] == TurnOn(id) && IssuedFresh(s, i.issued)
    ensures var s' := Next(c, s, Run(req, i)); req in s'.tasks && s'.tasks[req].Done? && s'.db == Enable(s.db, id, i.issued)
  {
    hide Enable;
    StatementIs(c, s, req, i);
  }

  /** Run alone, the three statements of `confirm_enrollment` do what the whole request does, for row
      ids not used before. */
  lemma ConfirmAlone(c: Crypto, s: State, req: Req, id: Id, code: string, i: Input)
    requires req in s.tasks && s.tasks[req] == LoadForConfirm(id, code) && id in s.db.identities && IssuedFresh(s, i.issued)
    ensures var s' := Alone(c, s, req, [i, i, i]);
            && req in s'.tasks && s'.tasks[req].Done?
            && s'.db == match ConfirmStep(c, s.db.identities[id], code, i.now)
                        case None => s.db
                        case Some(step) => Enable(MarkStep(s.db, id, step), id, i.issued)
  {
    hide Next, Program, Do, ConfirmStep, Enable, MarkStep;
    var s1 := Next(c, s, Run(req, i));
    var s2 := Next(c, s1, Run(req, i));
    assert [i, i, i] == [i] + [i, i] && [i, i] == [i] + [i] && [i] == [i] + [];
    OneMore(c, s, req, i, [i, i]);
    OneMore(c, s1, req, i, [i]);
    LoadForConfirmIs(c, s, req, id, code, i);
    MarkConfirmIs(c, s1, req, id, s.db.identities[id], code, i);
    if s2.tasks[req].Done? {
      StaysDone(c, s2, req, [i]);
    } else {
      TurnOnIs(c, s2, req, id, i);
      OneMore(c, s2, req, i, []);
      StaysDone(c, Next(c, s2, Run(req, i)), req, []);
    }
  }
}
