/** What lockout guarantees over whole runs of requests, whatever entry points are mixed. */
module Lockout {
  import opened Prelude
  import opened Mfa
  import opened Auth

  /** The tables after a run of requests. */
  function After(k: Checks, t: Tables, rs: seq<Request>): Tables {
    if rs == [] then t else Handle(k, After(k, t, rs[..|rs| - 1]), rs[|rs| - 1]).t
  }

  /** The clock does not go back within a request. */
  predicate ClockOk(r: Request) {
    r.PasswordLogin? || r.IdentityLogin? || r.MfaLogin? ==> r.now <= r.later
  }

  /** When the failures counted against an identity happened, in order. */
  function Failures(k: Checks, t: Tables, rs: seq<Request>, id: Id): seq<nat> {
    if rs == [] then []
    else
      var r := rs[|rs| - 1];
      var before := rs[..|rs| - 1];
      Failures(k, t, before, id)
      + if (r.PasswordLogin? || r.IdentityLogin? || r.MfaLogin?)
           && Handle(k, After(k, t, before), r).outcome == WrongCredential(id)
        then [r.later] else []
  }

  /** What makes a request clear an identity's counter, checked on the tables before it: the right
      password with the gates open, or a completed second factor. */
  predicate Clears(k: Checks, t: Tables, r: Request, id: Id) {
    match r
    case PasswordLogin(user, allowed, password, now, _, _) =>
      && user in t.db.users && t.db.users[user].identity == id && id in t.db.identities
      && CheckGates(t.db.users[user], t.db.identities[id], now).None? && allowed
      && RightPassword(k, t.db.identities[id], password)
    case IdentityLogin(i, password, now, _) =>
      && i == id && id in t.db.identities && t.db.identities[id].active && !LockedAt(t.db.identities[id], now)
      && RightPassword(k, t.db.identities[id], password)
    case MfaLogin(token, code, codeRow, now, _) => SecondFactor(k, t, r, id)
    case _ => false
  }

  predicate RightPassword(k: Checks, row: Identity, password: string) {
    row.password.Some? && k.password(row.password.value, password)
  }

  predicate LockedAt(row: Identity, now: nat) { row.lockedUntil.Some? && row.lockedUntil.value > now }

  /** A live challenge of a member of this identity, under its cap, the gates open, the code right. */
  predicate SecondFactor(k: Checks, t: Tables, r: Request, id: Id) {
    && r.MfaLogin? && r.token in t.db.challenges
    && r.now < t.db.challenges[r.token].expires && t.db.challenges[r.token].attempts < 5
    && (var user := t.db.challenges[r.token].user;
        && user in t.db.users && t.db.users[user].identity == id && id in t.db.identities
        && CheckGates(t.db.users[user], t.db.identities[id], r.now).None?
        && VerifySpec(k.crypto, t.db, id, t.db.identities[id], r.code, r.codeRow, r.now).1)
  }

  lemma ClearsIff(k: Checks, t: Tables, r: Request, id: Id)
    ensures Handle(k, t, r).cleared == Some(id) <==> Clears(k, t, r, id)
  {
    hide VerifySpec, RegisterFailed, IncrementAttempts, ClearFailed, InsertChange;
  }

  /** No request of the run clears the identity's counter. */
  predicate NoClear(k: Checks, t: Tables, rs: seq<Request>, id: Id) {
    rs == []
    || (NoClear(k, t, rs[..|rs| - 1], id) && !Clears(k, After(k, t, rs[..|rs| - 1]), rs[|rs| - 1], id))
  }

  // ---------------------------------------------------------------- the counter

  /** What a request may do to one identity's counter and lock: count one failure while not locked,
      clear both while not locked, or leave both alone. */
  ghost predicate CounterMoves(was: Identity, r: Request, d: Done, id: Id) {
    && id in d.t.db.identities
    && (d.outcome == WrongCredential(id) ==>
          && (r.PasswordLogin? || r.IdentityLogin? || r.MfaLogin?)
          && !LockedAt(was, r.now)
          && d.t.db.identities[id].failed == was.failed + 1
          && (was.failed + 1 >= 5 ==> d.t.db.identities[id].lockedUntil == Some(r.later + 900)))
    && (d.outcome != WrongCredential(id) && d.cleared != Some(id) ==>
          && d.t.db.identities[id].failed == was.failed
          && d.t.db.identities[id].lockedUntil == was.lockedUntil)
    && (d.cleared == Some(id) ==>
          && (r.PasswordLogin? || r.IdentityLogin? || r.MfaLogin?) && d.outcome != WrongCredential(id)
          && !LockedAt(was, r.now)
          && d.t.db.identities[id].failed == 0 && d.t.db.identities[id].lockedUntil == None)
  }

  lemma FinalizeKeeps(t: Tables, user: Id, row: Identity, now: nat, token: Token, cleared: Option<Id>)
    ensures var d := Finalize(t, user, row, now, token, cleared);
            d.t.db.identities == t.db.identities && !d.outcome.WrongCredential? && d.cleared == cleared
  {
  }

  lemma VerifyKeeps(c: Crypto, db: Db, id: Id, row: Identity, code: string, codeRow: Id, now: nat)
    ensures var db' := VerifySpec(c, db, id, row, code, codeRow, now).0;
            && db'.identities.Keys == db.identities.Keys && db'.challenges == db.challenges && db'.users == db.users
            && forall i :: i in db.identities ==>
                 db'.identities[i].failed == db.identities[i].failed && db'.identities[i].lockedUntil == db.identities[i].lockedUntil
  {
    hide VerifyPlan;
  }

  lemma PasswordMoves(k: Checks, t: Tables, r: Request, id: Id)
    requires r.PasswordLogin? && id in t.db.identities
    ensures CounterMoves(t.db.identities[id], r, Handle(k, t, r), id)
  {
    hide Finalize;
    if r.user in t.db.users && t.db.users[r.user].identity in t.db.identities {
      var i := t.db.users[r.user].identity;
      FinalizeKeeps(WithDb(t, ClearFailed(t.db, i)), r.user, t.db.identities[i], r.now, r.token, Some(i));
    }
  }

  lemma OpenIsUnlocked(m: Member, row: Identity, now: nat)
    ensures CheckGates(m, row, now).None? ==> !LockedAt(row, now)
  {
  }

  lemma MfaMoves(k: Checks, t: Tables, r: Request, id: Id)
    requires r.MfaLogin? && id in t.db.identities
    ensures CounterMoves(t.db.identities[id], r, Handle(k, t, r), id)
  {
    hide VerifySpec, CheckGates;
    if r.token in t.db.challenges && t.db.challenges[r.token].user in t.db.users
       && t.db.users[t.db.challenges[r.token].user].identity in t.db.identities {
      var i := t.db.users[t.db.challenges[r.token].user].identity;
      OpenIsUnlocked(t.db.users[t.db.challenges[r.token].user], t.db.identities[i], r.now);
      VerifyKeeps(k.crypto, t.db, i, t.db.identities[i], r.code, r.codeRow, r.now);
    }
  }

  lemma IdentityMoves(k: Checks, t: Tables, r: Request, id: Id)
    requires r.IdentityLogin? && id in t.db.identities
    ensures CounterMoves(t.db.identities[id], r, Handle(k, t, r), id)
  {
  }

  lemma ForceMoves(k: Checks, t: Tables, r: Request, id: Id)
    requires r.ForceChange? && id in t.db.identities
    ensures CounterMoves(t.db.identities[id], r, Handle(k, t, r), id)
  {
    hide Finalize;
    if r.change in t.changes && t.changes[r.change].user in t.db.users
       && t.db.users[t.changes[r.change].user].identity in t.db.identities {
      var user := t.changes[r.change].user;
      var i := t.db.users[user].identity;
      var row := t.db.identities[i].(password := Some(r.newHash), forceChange := false);
      FinalizeKeeps(Tables(SetIdentity(t.db, i, row), t.changes - {r.change}, t.issued), user, row, r.now, r.token, None);
    }
  }

  lemma QuietMoves(k: Checks, t: Tables, r: Request, id: Id)
    requires r.GatedLogin? || r.SignUp? || r.ManageMfa? || r.Elsewhere? || r.ChangeUser?
    requires id in t.db.identities
    ensures CounterMoves(t.db.identities[id], r, Handle(k, t, r), id)
  {
    hide Finalize;
    if r.GatedLogin? && r.user in t.db.users && t.db.users[r.user].identity in t.db.identities {
      FinalizeKeeps(t, r.user, t.db.identities[t.db.users[r.user].identity], r.now, r.token, None);
    }
  }

  /** What any one request does to one identity's counter and lock. */
  lemma {:induction false} CounterStep(k: Checks, t: Tables, r: Request, id: Id)
    requires id in t.db.identities
    ensures CounterMoves(t.db.identities[id], r, Handle(k, t, r), id)
  {
    hide *;
    match r
    case PasswordLogin(_, _, _, _, _, _) => PasswordMoves(k, t, r, id);
    case IdentityLogin(_, _, _, _) => IdentityMoves(k, t, r, id);
    case MfaLogin(_, _, _, _, _) => MfaMoves(k, t, r, id);
    case ForceChange(_, _, _, _, _) => ForceMoves(k, t, r, id);
    case _ => QuietMoves(k, t, r, id);
  }

  /** From the fifth failure on, each failure is at least the lock's length after the one before. */
  predicate Spaced(times: seq<nat>) {
    forall j :: 5 <= j < |times| ==> times[j] >= times[j - 1] + 900
  }

  /** The counter counts the failures, and from the fifth on the lock ends after the last one. */
  predicate CounterMatches(row: Identity, times: seq<nat>) {
    && row.failed == |times|
    && (|times| >= 5 ==> row.lockedUntil == Some(times[|times| - 1] + 900))
  }

  /** One more request after a run. */
  lemma OneMoreRequest(was: Identity, r: Request, d: Done, id: Id, times: seq<nat>)
    requires CounterMatches(was, times) && Spaced(times) && CounterMoves(was, r, d, id) && ClockOk(r) && d.cleared != Some(id)
    ensures var times' := times + if d.outcome == WrongCredential(id) then [r.later] else [];
            CounterMatches(d.t.db.identities[id], times') && Spaced(times')
  {
  }

  lemma NoFailures(row: Identity)
    requires row.failed == 0
    ensures CounterMatches(row, []) && Spaced([])
  {
  }

  lemma FailuresFrom(k: Checks, t: Tables, r: Request, id: Id)
    requires id in t.db.identities
    ensures id in Handle(k, t, r).t.db.identities
    ensures Handle(k, t, r).outcome == WrongCredential(id) ==> r.PasswordLogin? || r.IdentityLogin? || r.MfaLogin?
  {
    hide Handle;
    CounterStep(k, t, r, id);
  }

  /** An identity that is not there yet has no failures, and none when it appears. */
  lemma NewcomerStep(k: Checks, t: Tables, r: Request, id: Id)
    requires id !in t.db.identities
    ensures var d := Handle(k, t, r);
            d.outcome != WrongCredential(id) && (id in d.t.db.identities ==> d.t.db.identities[id].failed == 0)
  {
    if r.MfaLogin? {
      hide *;
      MfaNewcomerStep(k, t, r, id);
    } else {
      hide CheckGates, InsertChange;
    }
  }

  lemma MfaNewcomerStep(k: Checks, t: Tables, r: Request, id: Id)
    requires r.MfaLogin? && id !in t.db.identities
    ensures Handle(k, t, r).outcome != WrongCredential(id) && id !in Handle(k, t, r).t.db.identities
  {
    hide VerifySpec, CheckGates;
    if r.token in t.db.challenges && t.db.challenges[r.token].user in t.db.users
       && t.db.users[t.db.challenges[r.token].user].identity in t.db.identities {
      var i := t.db.users[t.db.challenges[r.token].user].identity;
      VerifyKeeps(k.crypto, t.db, i, t.db.identities[i], r.code, r.codeRow, r.now);
    }
  }

  /** The identity's counter starts at zero, now or when the identity appears. */
  predicate StartsAtZero(t: Tables, id: Id) { id in t.db.identities ==> t.db.identities[id].failed == 0 }

  predicate FailuresMatch(t: Tables, id: Id, times: seq<nat>) {
    if id in t.db.identities then CounterMatches(t.db.identities[id], times) else times == []
  }

  lemma {:induction false} FailuresSpaced(k: Checks, t: Tables, rs: seq<Request>, id: Id)
    requires StartsAtZero(t, id) && NoClear(k, t, rs, id)
    requires forall i :: 0 <= i < |rs| ==> ClockOk(rs[i])
    ensures FailuresMatch(After(k, t, rs), id, Failures(k, t, rs, id))
    ensures Spaced(Failures(k, t, rs, id))
    decreases |rs|
  {
    hide Handle, Clears, CounterMoves, CounterMatches, Spaced, ClockOk;
    if rs == [] {
      if id in t.db.identities {
        NoFailures(t.db.identities[id]);
      } else {
        NothingSpaced();
      }
    } else {
      var n := |rs| - 1;
      FailuresSpaced(k, t, rs[..n], id);
      var t' := After(k, t, rs[..n]);
      if id in t'.db.identities {
        CounterStep(k, t', rs[n], id);
        ClearsIff(k, t', rs[n], id);
        OneMoreRequest(t'.db.identities[id], rs[n], Handle(k, t', rs[n]), id, Failures(k, t, rs[..n], id));
        FailuresFrom(k, t', rs[n], id);
      } else {
        NewcomerStep(k, t', rs[n], id);
        NothingSpaced();
        if id in After(k, t, rs).db.identities {
          NoFailures(After(k, t, rs).db.identities[id]);
        }
      }
    }
  }

  lemma NothingSpaced()
    ensures Spaced([])
  {
  }

  lemma {:induction false} SpacedAdds(times: seq<nat>, n: nat)
    requires Spaced(times) && 5 <= n <= |times|
    ensures times[n - 1] >= times[4] + 900 * (n - 5)
    decreases n
  {
    if n > 5 {
      SpacedAdds(times, n - 1);
    }
  }

  /** In any run that starts with no failures and clears none, over any mix of tenant password
      logins, identity logins and MFA completions through any memberships, the n-th failure comes
      at least 15 (n - 5) minutes after the fifth. */
  lemma LockoutRate(k: Checks, t: Tables, rs: seq<Request>, id: Id, n: nat)
    requires StartsAtZero(t, id) && NoClear(k, t, rs, id)
    requires forall i :: 0 <= i < |rs| ==> ClockOk(rs[i])
    requires 5 < n <= |Failures(k, t, rs, id)|
    ensures Failures(k, t, rs, id)[n - 1] >= Failures(k, t, rs, id)[4] + 900 * (n - 5)
  {
    FailuresSpaced(k, t, rs, id);
    SpacedAdds(Failures(k, t, rs, id), n);
  }

  // ---------------------------------------------------------------- the attempt cap of a challenge

  /** Wrong codes tried against one challenge. */
  function WrongCodes(k: Checks, t: Tables, rs: seq<Request>, token: Token): nat {
    if rs == [] then 0
    else
      var r := rs[|rs| - 1];
      var before := rs[..|rs| - 1];
      WrongCodes(k, t, before, token)
      + if r.MfaLogin? && r.token == token && Handle(k, After(k, t, before), r).outcome.WrongCredential? then 1 else 0
  }

  predicate TokensKnown(t: Tables) { t.db.challenges.Keys + t.changes.Keys <= t.issued }

  /** The challenge's own counter is the number of wrong codes, while it exists. */
  predicate AttemptsMatch(t: Tables, token: Token, wrong: nat) {
    && TokensKnown(t)
    && wrong <= 5
    && (token !in t.issued ==> wrong == 0)
    && (token in t.db.challenges ==> t.db.challenges[token].attempts == wrong)
  }

  lemma AttemptStep(k: Checks, t: Tables, r: Request, token: Token, wrong: nat)
    requires AttemptsMatch(t, token, wrong)
    ensures var d := Handle(k, t, r);
            AttemptsMatch(d.t, token, wrong + if r.MfaLogin? && r.token == token && d.outcome.WrongCredential? then 1 else 0)
  {
    if r.MfaLogin? {
      hide *;
      MfaAttemptStep(k, t, r, token, wrong);
    } else {
      OtherAttemptStep(k, t, r, token, wrong);
    }
  }

  lemma OtherAttemptStep(k: Checks, t: Tables, r: Request, token: Token, wrong: nat)
    requires AttemptsMatch(t, token, wrong) && !r.MfaLogin?
    ensures AttemptsMatch(Handle(k, t, r).t, token, wrong)
  {
    hide CheckGates;
  }

  lemma MfaAttemptStep(k: Checks, t: Tables, r: Request, token: Token, wrong: nat)
    requires AttemptsMatch(t, token, wrong) && r.MfaLogin?
    ensures var d := Handle(k, t, r);
            AttemptsMatch(d.t, token, wrong + if r.token == token && d.outcome.WrongCredential? then 1 else 0)
  {
    hide VerifySpec, CheckGates;
    if r.token in t.db.challenges && t.db.challenges[r.token].user in t.db.users
       && t.db.users[t.db.challenges[r.token].user].identity in t.db.identities {
      var i := t.db.users[t.db.challenges[r.token].user].identity;
      VerifyKeeps(k.crypto, t.db, i, t.db.identities[i], r.code, r.codeRow, r.now);
    }
  }

  lemma {:induction false} AttemptsAlwaysMatch(k: Checks, t: Tables, rs: seq<Request>, token: Token)
    requires TokensKnown(t) && token !in t.issued
    ensures AttemptsMatch(After(k, t, rs), token, WrongCodes(k, t, rs, token))
    decreases |rs|
  {
    hide Handle;
    if rs != [] {
      var n := |rs| - 1;
      AttemptsAlwaysMatch(k, t, rs[..n], token);
      AttemptStep(k, After(k, t, rs[..n]), rs[n], token, WrongCodes(k, t, rs[..n], token));
    }
  }

  /** One request at a time, no challenge ever takes more than five wrong codes. */
  lemma FiveAttempts(k: Checks, t: Tables, rs: seq<Request>, token: Token)
    requires TokensKnown(t) && token !in t.issued
    ensures WrongCodes(k, t, rs, token) <= 5
  {
    AttemptsAlwaysMatch(k, t, rs, token);
  }
}
