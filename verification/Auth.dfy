/** The login requests of `src/services/auth.rs`, one request at a time: gates, lockout, forced
    password change, MFA challenges and sessions. Times are seconds. */
module Auth {
  import opened Prelude
  import opened Mfa

  const CHANGE_TTL := 900

  datatype Outcome =
    | Refused(why: Refusal)
    | WrongCredential(id: Id)
    | ChangeRequired(token: Token)
    | MfaRequired(token: Token)
    | SignedIn(id: Id)
    | Session(user: Id)
    | Handled

  /** A pending forced password change. */
  datatype Change = Change(user: Id, expires: int)

  /** The tables, and the tokens ever issued (they are random, so never repeated). */
  datatype Tables = Tables(db: Db, changes: map<Token, Change>, issued: set<Token>)

  /** What a request did: the tables after it, its answer, and whose failure counter it cleared. */
  datatype Done = Done(t: Tables, outcome: Outcome, cleared: Option<Id>)

  /** Requests with the clock readings and random values they see. `now` is read at the gates and
      `later` when a failure is recorded. */
  datatype Request =
    | PasswordLogin(user: Id, allowed: bool, password: string, now: nat, later: nat, token: Token)
    | IdentityLogin(id: Id, password: string, now: nat, later: nat)
    | GatedLogin(user: Id, allowed: bool, now: nat, token: Token)
    | MfaLogin(token: Token, code: string, codeRow: Id, now: nat, later: nat)
    | ForceChange(change: Token, accepted: bool, newHash: string, now: nat, token: Token)
    /** Sign-up, invitation or an administrator: a new identity. */
    | SignUp(id: Id, row: Identity)
    /** MFA turned on or off or its codes regenerated: columns of the identity and its backup codes. */
    | ManageMfa(id: Id, row: Identity, issued: map<Id, string>)
    /** Any other write to columns of `identities`. */
    | Elsewhere(id: Id, row: Identity)
    | ChangeUser(user: Id, member: Member)

  /** Argon2 verification. */
  datatype Checks = Checks(crypto: Crypto, password: (string, string) -> bool)

  // ---------------------------------------------------------------- pieces

  function ClearFailed(db: Db, id: Id): Db {
    if id !in db.identities then db else SetIdentity(db, id, db.identities[id].(failed := 0, lockedUntil := None))
  }

  /** `register_failed_attempt` on the identity as it was loaded. */
  function RegisterFailed(db: Db, id: Id, loaded: Identity, now: nat): Db {
    if id !in db.identities then db
    else
      var row := db.identities[id];
      SetIdentity(db, id, if loaded.failed + 1 >= LOCK_AFTER
                          then row.(failed := row.failed + 1, lockedUntil := Some(now + LOCK_SECS))
                          else row.(failed := row.failed + 1))
  }

  /** `ForceChangeTokensRepo::create`: a user's new change token replaces the old ones. */
  function InsertChange(changes: map<Token, Change>, token: Token, user: Id, expires: int): map<Token, Change> {
    (map c | c in changes && changes[c].user != user :: changes[c])[token := Change(user, expires)]
  }

  /** `finalize_login`: forced change, then MFA, then a session. */
  function Finalize(t: Tables, user: Id, row: Identity, now: nat, token: Token, cleared: Option<Id>): Done {
    if !row.forceChange && !row.mfaEnabled then Done(t, Session(user), cleared)
    else if token in t.issued then Done(t, Refused(BadToken), cleared)
    else if row.forceChange then
      Done(Tables(t.db, InsertChange(t.changes, token, user, now + CHANGE_TTL), t.issued + {token}),
           ChangeRequired(token), cleared)
    else
      Done(Tables(InsertChallenge(PurgeChallenges(t.db, now), token, user, now + CHALLENGE_TTL), t.changes, t.issued + {token}),
           MfaRequired(token), cleared)
  }

  function Stop(t: Tables, why: Refusal): Done { Done(t, Refused(why), None) }

  function WithDb(t: Tables, db: Db): Tables { t.(db := db) }

  // ---------------------------------------------------------------- requests

  function PasswordLoginSpec(k: Checks, t: Tables, user: Id, allowed: bool, password: string, now: nat, later: nat, token: Token): Done {
    if user !in t.db.users || t.db.users[user].identity !in t.db.identities then Stop(t, NotFound)
    else
      var m := t.db.users[user];
      var row := t.db.identities[m.identity];
      var gate := CheckGates(m, row, now);
      if gate.Some? then Stop(t, gate.value)
      else if !allowed then Stop(t, MethodNotAllowed)
      else if row.password.None? then Stop(t, BadRequest)
      else if !k.password(row.password.value, password) then
        Done(WithDb(t, RegisterFailed(t.db, m.identity, row, later)), WrongCredential(m.identity), None)
      else Finalize(WithDb(t, ClearFailed(t.db, m.identity)), user, row, now, token, Some(m.identity))
  }

  function IdentityLoginSpec(k: Checks, t: Tables, id: Id, password: string, now: nat, later: nat): Done {
    if id !in t.db.identities then Stop(t, NotFound)
    else
      var row := t.db.identities[id];
      if !row.active then Stop(t, NotActive)
      else if row.lockedUntil.Some? && row.lockedUntil.value > now then Stop(t, Locked)
      else if row.password.None? then Stop(t, BadRequest)
      else if !k.password(row.password.value, password) then
        Done(WithDb(t, RegisterFailed(t.db, id, row, later)), WrongCredential(id), None)
      else Done(WithDb(t, ClearFailed(t.db, id)), SignedIn(id), Some(id))
  }

  /** The tail shared by OTP login, OAuth login and `select_tenant`, which allows every method. */
  function GatedLoginSpec(t: Tables, user: Id, allowed: bool, now: nat, token: Token): Done {
    if user !in t.db.users || t.db.users[user].identity !in t.db.identities then Stop(t, NotFound)
    else
      var m := t.db.users[user];
      var row := t.db.identities[m.identity];
      var gate := CheckGates(m, row, now);
      if gate.Some? then Stop(t, gate.value)
      else if !allowed then Stop(t, MethodNotAllowed)
      else Finalize(t, user, row, now, token, None)
  }

  function MfaLoginSpec(k: Checks, t: Tables, token: Token, code: string, codeRow: Id, now: nat, later: nat): Done {
    if token !in t.db.challenges || t.db.challenges[token].expires <= now then Stop(t, BadToken)
    else if t.db.challenges[token].attempts >= MAX_MFA_ATTEMPTS then
      Stop(WithDb(t, DeleteChallenge(t.db, token)), TooManyAttempts)
    else
      var user := t.db.challenges[token].user;
      if user !in t.db.users || t.db.users[user].identity !in t.db.identities then Stop(t, BadToken)
      else
        var m := t.db.users[user];
        var row := t.db.identities[m.identity];
        var gate := CheckGates(m, row, now);
        if gate.Some? then Stop(t, gate.value)
        else
          var (db, ok) := VerifySpec(k.crypto, t.db, m.identity, row, code, codeRow, now);
          if !ok then
            Done(WithDb(t, RegisterFailed(IncrementAttempts(db, token), m.identity, row, later)),
                 WrongCredential(m.identity), None)
          else Done(WithDb(t, ClearFailed(DeleteChallenge(db, token), m.identity)), Session(user), Some(m.identity))
  }

  /** `force_change_password`: re-checks only the membership's access expiry. Whether the new
      password is acceptable is an input. */
  function ForceChangeSpec(t: Tables, change: Token, accepted: bool, newHash: string, now: nat, token: Token): Done {
    if change !in t.changes || t.changes[change].expires <= now then Stop(t, BadToken)
    else if !accepted then Stop(t, BadRequest)
    else
      var user := t.changes[change].user;
      if user !in t.db.users || t.db.users[user].identity !in t.db.identities then Stop(t, NotFound)
      else
        var m := t.db.users[user];
        if m.validUntil.Some? && now > m.validUntil.value then Stop(t, AccessExpired)
        else
          var row := t.db.identities[m.identity].(password := Some(newHash), forceChange := false);
          var t' := Tables(SetIdentity(t.db, m.identity, row), t.changes - {change}, t.issued);
          Finalize(t', user, row, now, token, None)
  }

  /** Other requests may write any column but the failure counter and the lock. */
  function ElsewhereSpec(t: Tables, id: Id, row: Identity): Done {
    if id !in t.db.identities then Stop(t, NotFound)
    else
      var was := t.db.identities[id];
      Done(WithDb(t, SetIdentity(t.db, id, row.(failed := was.failed, lockedUntil := was.lockedUntil))), Handled, None)
  }

  /** A new identity starts without failures and without a lock. */
  function SignUpSpec(t: Tables, id: Id, row: Identity): Done {
    if id in t.db.identities then Stop(t, BadRequest)
    else Done(WithDb(t, SetIdentity(t.db, id, row.(failed := 0, lockedUntil := None))), Handled, None)
  }

  function ManageMfaSpec(t: Tables, id: Id, row: Identity, issued: map<Id, string>): Done {
    if id !in t.db.identities || !(issued.Keys !! t.db.codes.Keys) then Stop(t, BadRequest)
    else
      var d := ElsewhereSpec(t, id, row);
      Done(WithDb(d.t, ReplaceCodes(d.t.db, id, issued)), Handled, None)
  }

  function Handle(k: Checks, t: Tables, r: Request): Done {
    match r
    case PasswordLogin(user, allowed, password, now, later, token) => PasswordLoginSpec(k, t, user, allowed, password, now, later, token)
    case IdentityLogin(id, password, now, later) => IdentityLoginSpec(k, t, id, password, now, later)
    case GatedLogin(user, allowed, now, token) => GatedLoginSpec(t, user, allowed, now, token)
    case MfaLogin(token, code, codeRow, now, later) => MfaLoginSpec(k, t, token, code, codeRow, now, later)
    case ForceChange(change, accepted, newHash, now, token) => ForceChangeSpec(t, change, accepted, newHash, now, token)
    case SignUp(id, row) => SignUpSpec(t, id, row)
    case ManageMfa(id, row, issued) => ManageMfaSpec(t, id, row, issued)
    case Elsewhere(id, row) => ElsewhereSpec(t, id, row)
    case ChangeUser(user, member) => Done(WithDb(t, t.db.(users := t.db.users[user := member])), Handled, None)
  }

  // ---------------------------------------------------------------- the service

  class AuthService {
    const checks: Checks
    const repo: MfaRepo
    var changes: map<Token, Change>
    var issued: set<Token>

    ghost function Now(): Tables
      reads this, repo
    {
      Tables(repo.Tables(), changes, issued)
    }

    constructor (checks: Checks, t: Tables)
      ensures this.checks == checks && fresh(repo) && Now() == t
    {
      this.checks := checks;
      repo := new MfaRepo(t.db);
      changes, issued := t.changes, t.issued;
    }

    method RegisterFailedAttempt(id: Id, loaded: Identity, now: nat)
      modifies repo`identities
      ensures Now() == WithDb(old(Now()), RegisterFailed(old(Now()).db, id, loaded, now))
    {
      if id !in repo.identities { return; }
      var row := repo.identities[id];
      if loaded.failed + 1 >= LOCK_AFTER {
        repo.identities := repo.identities[id := row.(failed := row.failed + 1, lockedUntil := Some(now + LOCK_SECS))];
      } else {
        repo.identities := repo.identities[id := row.(failed := row.failed + 1)];
      }
    }

    method ClearFailedAttempts(id: Id)
      modifies repo`identities
      ensures Now() == WithDb(old(Now()), ClearFailed(old(Now()).db, id))
    {
      if id in repo.identities {
        repo.identities := repo.identities[id := repo.identities[id].(failed := 0, lockedUntil := None)];
      }
    }

    method FinalizeLogin(user: Id, row: Identity, now: nat, token: Token, ghost cleared: Option<Id>) returns (o: Outcome)
      modifies this, repo`challenges
      ensures Now() == Finalize(old(Now()), user, row, now, token, cleared).t
      ensures o == Finalize(old(Now()), user, row, now, token, cleared).outcome
    {
      if row.forceChange {
        if token in issued { return Refused(BadToken); }
        changes := map c | c in changes && changes[c].user != user :: changes[c];
        changes := changes[token := Change(user, now + CHANGE_TTL)];
        issued := issued + {token};
        return ChangeRequired(token);
      }
      if row.mfaEnabled {
        if token in issued { return Refused(BadToken); }
        repo.challenges := map t | t in repo.challenges && repo.challenges[t].expires > now :: repo.challenges[t];
        repo.challenges := repo.challenges[token := Challenge(user, 0, now + CHALLENGE_TTL)];
        issued := issued + {token};
        return MfaRequired(token);
      }
      o := Session(user);
    }

    method DoPasswordLogin(user: Id, allowed: bool, password: string, now: nat, later: nat, token: Token) returns (o: Outcome)
      modifies this, repo
      ensures var d := PasswordLoginSpec(checks, old(Now()), user, allowed, password, now, later, token);
              Now() == d.t && o == d.outcome
    {
      hide Finalize, RegisterFailed, ClearFailed, CheckGates;
      if user !in repo.users || repo.users[user].identity !in repo.identities { return Refused(NotFound); }
      var m := repo.users[user];
      var row := repo.identities[m.identity];
      var gate := CheckGates(m, row, now);
      if gate.Some? { return Refused(gate.value); }
      if !allowed { return Refused(MethodNotAllowed); }
      if row.password.None? { return Refused(BadRequest); }
      if !checks.password(row.password.value, password) {
        RegisterFailedAttempt(m.identity, row, later);
        return WrongCredential(m.identity);
      }
      ClearFailedAttempts(m.identity);
      o := FinalizeLogin(user, row, now, token, Some(m.identity));
    }

    method LoginIdentity(id: Id, password: string, now: nat, later: nat) returns (o: Outcome)
      modifies this, repo
      ensures var d := IdentityLoginSpec(checks, old(Now()), id, password, now, later); Now() == d.t && o == d.outcome
    {
      if id !in repo.identities { return Refused(NotFound); }
      var row := repo.identities[id];
      if !row.active { return Refused(NotActive); }
      if row.lockedUntil.Some? && row.lockedUntil.value > now { return Refused(Locked); }
      if row.password.None? { return Refused(BadRequest); }
      if !checks.password(row.password.value, password) {
        RegisterFailedAttempt(id, row, later);
        return WrongCredential(id);
      }
      ClearFailedAttempts(id);
      o := SignedIn(id);
    }

    /** `picked` is the backup-code row spent, if one was. */
    method CompleteMfaLogin(token: Token, code: string, now: nat, later: nat) returns (o: Outcome, ghost picked: Id)
      modifies this, repo
      ensures var d := MfaLoginSpec(checks, old(Now()), token, code, picked, now, later); Now() == d.t && o == d.outcome
    {
      hide VerifyPlan, VerifySpec, CheckGates, RegisterFailed, ClearFailed;
      picked := 0;
      if token !in repo.challenges || repo.challenges[token].expires <= now { return Refused(BadToken), 0; }
      if repo.challenges[token].attempts >= MAX_MFA_ATTEMPTS {
        var _ := repo.RedeemChallenge(token);
        return Refused(TooManyAttempts), 0;
      }
      var user := repo.challenges[token].user;
      if user !in repo.users || repo.users[user].identity !in repo.identities { return Refused(BadToken), 0; }
      var m := repo.users[user];
      var row := repo.identities[m.identity];
      var gate := CheckGates(m, row, now);
      if gate.Some? { return Refused(gate.value), 0; }
      var ok;
      ok, picked := repo.Verify(checks.crypto, m.identity, row, code, now);
      if !ok {
        if token in repo.challenges {
          repo.challenges := repo.challenges[token := repo.challenges[token].(attempts := repo.challenges[token].attempts + 1)];
        }
        RegisterFailedAttempt(m.identity, row, later);
        return WrongCredential(m.identity), picked;
      }
      var _ := repo.RedeemChallenge(token);
      ClearFailedAttempts(m.identity);
      o := Session(user);
    }

    /** `login_with_verified_otp`, once the code is verified and the user found. */
    method LoginWithVerifiedOtp(user: Id, allowed: bool, now: nat, token: Token) returns (o: Outcome)
      modifies this, repo
      ensures var d := GatedLoginSpec(old(Now()), user, allowed, now, token); Now() == d.t && o == d.outcome
    {
      hide Finalize, CheckGates;
      if user !in repo.users || repo.users[user].identity !in repo.identities { return Refused(NotFound); }
      var m := repo.users[user];
      var row := repo.identities[m.identity];
      var gate := CheckGates(m, row, now);
      if gate.Some? { return Refused(gate.value); }
      if !allowed { return Refused(MethodNotAllowed); }
      o := FinalizeLogin(user, row, now, token, None);
    }

    /** `select_tenant`: any membership of the identity in the tenant, then the shared tail. */
    method SelectTenant(identity: Id, tenant: string, now: nat, token: Token) returns (o: Outcome, ghost user: Option<Id>)
      modifies this, repo
      ensures user.None? ==>
                && (forall u :: u in old(Now()).db.users ==>
                      old(Now()).db.users[u].identity != identity || old(Now()).db.users[u].tenant != tenant)
                && o == Refused(NoMembership) && Now() == old(Now())
      ensures user.Some? ==>
                && user.value in old(Now()).db.users
                && old(Now()).db.users[user.value].identity == identity && old(Now()).db.users[user.value].tenant == tenant
                && var d := GatedLoginSpec(old(Now()), user.value, true, now, token); Now() == d.t && o == d.outcome
    {
      if u :| u in repo.users && repo.users[u].identity == identity && repo.users[u].tenant == tenant {
        user := Some(u);
        o := LoginWithVerifiedOtp(u, true, now, token);
      } else {
        user := None;
        o := Refused(NoMembership);
      }
    }

    method ForceChangePassword(change: Token, accepted: bool, newHash: string, now: nat, token: Token) returns (o: Outcome)
      modifies this, repo
      ensures var d := ForceChangeSpec(old(Now()), change, accepted, newHash, now, token); Now() == d.t && o == d.outcome
    {
      hide Finalize;
      if change !in changes || changes[change].expires <= now { return Refused(BadToken); }
      if !accepted { return Refused(BadRequest); }
      var user := changes[change].user;
      if user !in repo.users || repo.users[user].identity !in repo.identities { return Refused(NotFound); }
      var m := repo.users[user];
      if m.validUntil.Some? && now > m.validUntil.value { return Refused(AccessExpired); }
      repo.identities := repo.identities[m.identity := repo.identities[m.identity].(password := Some(newHash), forceChange := false)];
      changes := changes - {change};
      o := FinalizeLogin(user, repo.identities[m.identity], now, token, None);
    }
  }
}
