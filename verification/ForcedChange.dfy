/** A forced password change: what an accepted one stores, what a refused one leaves alone, and over
    whole runs how long the new password is the password. */
module ForcedChange {
  import opened Prelude
  import opened Mfa
  import opened Auth
  import opened Lockout
  import opened LoginTrace

  // ---------------------------------------------------------------- one change

  /** A live token, an accepted password, and a member whose access has not expired. */
  predicate MayReplace(t: Tables, r: Request) {
    && r.ForceChange? && r.change in t.changes && r.now < t.changes[r.change].expires && r.accepted
    && (var user := t.changes[r.change].user;
        IsUser(t, user) && (t.db.users[user].validUntil.None? || r.now <= t.db.users[user].validUntil.value))
  }

  /** The identity whose password is replaced. */
  function Whose(t: Tables, r: Request): Id
    requires MayReplace(t, r)
  {
    t.db.users[t.changes[r.change].user].identity
  }

  /** The identity with the new hash and the flag off, every other column and row as it was, and the
      token gone. */
  lemma ChangeStores(k: Checks, t: Tables, r: Request)
    requires MayReplace(t, r)
    ensures var id := Whose(t, r); var was := t.db.identities[id]; var after := Handle(k, t, r).t;
            && after.db.identities.Keys == t.db.identities.Keys
            && after.db.identities[id]
               == Identity(was.active, Some(r.newHash), false, was.mfaEnabled, was.secret, was.lastStep, was.failed, was.lockedUntil)
            && (forall other :: other in t.db.identities && other != id ==> after.db.identities[other] == t.db.identities[other])
            && (forall c :: c in after.changes <==> c in t.changes && c != r.change)
            && (forall c :: c in after.changes ==> after.changes[c] == t.changes[c])
            && after.db.codes == t.db.codes && after.db.users == t.db.users && t.issued <= after.issued
  {
    hide InsertChange;
  }

  /** Then a session, or a challenge with MFA on: the only other rows it touches. */
  lemma ChangeAnswers(k: Checks, t: Tables, r: Request)
    requires MayReplace(t, r)
    ensures var user := t.changes[r.change].user; var d := Handle(k, t, r);
            if !t.db.identities[Whose(t, r)].mfaEnabled then
              d.outcome == Session(user) && d.t.db.challenges == t.db.challenges && d.t.issued == t.issued
            else if r.token in t.issued then
              d.outcome.Refused? && d.t.db.challenges == t.db.challenges && d.t.issued == t.issued
            else
              && d.outcome == MfaRequired(r.token) && d.t.issued == t.issued + {r.token}
              && r.token in d.t.db.challenges && d.t.db.challenges[r.token] == Challenge(user, 0, r.now + 300)
              && forall other :: other != r.token ==>
                   (other in d.t.db.challenges <==> other in t.db.challenges && t.db.challenges[other].expires > r.now)
                   && (other in d.t.db.challenges ==> d.t.db.challenges[other] == t.db.challenges[other])
  {
    hide InsertChange;
  }

  lemma RefusedChange(k: Checks, t: Tables, r: Request)
    requires r.ForceChange? && !MayReplace(t, r)
    ensures Handle(k, t, r).outcome.Refused? && Handle(k, t, r).t == t
  {
  }

  // ---------------------------------------------------------------- every request

  /** The request replaces the identity's password by a forced change. */
  predicate Replaces(t: Tables, r: Request, id: Id) { MayReplace(t, r) && Whose(t, r) == id }

  /** The request writes the identity's columns from elsewhere. */
  predicate Writes(t: Tables, r: Request, id: Id) {
    || (r.Elsewhere? && r.id == id)
    || (r.ManageMfa? && r.id == id && r.issued.Keys !! t.db.codes.Keys)
  }

  /** Where an identity's columns, other than the marker, the counter and the lock, come from after
      any request. */
  predicate ColumnsFrom(t: Tables, r: Request, after: Tables, id: Id)
    requires id in t.db.identities
  {
    && id in after.db.identities
    && var was, row := t.db.identities[id], after.db.identities[id];
       if Writes(t, r, id) then row == r.row.(failed := was.failed, lockedUntil := was.lockedUntil)
       else
         && row.password == (if Replaces(t, r, id) then Some(r.newHash) else was.password)
         && row.forceChange == (!Replaces(t, r, id) && was.forceChange)
         && row.active == was.active && row.mfaEnabled == was.mfaEnabled && row.secret == was.secret
  }

  lemma {:induction false} ColumnsStep(k: Checks, t: Tables, r: Request, id: Id)
    requires id in t.db.identities
    ensures ColumnsFrom(t, r, Handle(k, t, r).t, id)
  {
    hide *;
    match r
    case ForceChange(_, _, _, _, _) => ColumnsOfChange(k, t, r, id);
    case MfaLogin(_, _, _, _, _) => ColumnsOfMfa(k, t, r, id);
    case PasswordLogin(_, _, _, _, _, _) => ColumnsOfLogin(k, t, r, id);
    case GatedLogin(_, _, _, _) => ColumnsOfLogin(k, t, r, id);
    case ManageMfa(_, _, _) => ColumnsOfManage(k, t, r, id);
    case IdentityLogin(_, _, _, _) => ColumnsOfIdentity(k, t, r, id);
    case _ => ColumnsOfOthers(k, t, r, id);
  }

  lemma ColumnsOfChange(k: Checks, t: Tables, r: Request, id: Id)
    requires r.ForceChange? && id in t.db.identities
    ensures ColumnsFrom(t, r, Handle(k, t, r).t, id)
  {
    hide Handle;
    if MayReplace(t, r) {
      ChangeStores(k, t, r);
    } else {
      RefusedChange(k, t, r);
    }
  }

  lemma ColumnsOfLogin(k: Checks, t: Tables, r: Request, id: Id)
    requires id in t.db.identities && (r.PasswordLogin? || r.GatedLogin?)
    ensures ColumnsFrom(t, r, Handle(k, t, r).t, id)
  {
    hide Finalize, CheckGates, Replaces;
    NoChange(t, r, id);
    if IsUser(t, r.user) {
      var row := RowOf(t, r.user);
      var i := t.db.users[r.user].identity;
      FinalizeKeeps(WithDb(t, ClearFailed(t.db, i)), r.user, row, r.now, r.token, Some(i));
      FinalizeKeeps(t, r.user, row, r.now, r.token, None);
    }
  }

  lemma NoChange(t: Tables, r: Request, id: Id)
    requires !r.ForceChange?
    ensures !Replaces(t, r, id)
  {
  }

  lemma ColumnsOfOthers(k: Checks, t: Tables, r: Request, id: Id)
    requires id in t.db.identities && (r.SignUp? || r.Elsewhere? || r.ChangeUser?)
    ensures ColumnsFrom(t, r, Handle(k, t, r).t, id)
  {
    hide Replaces;
    NoChange(t, r, id);
  }

  lemma ColumnsOfIdentity(k: Checks, t: Tables, r: Request, id: Id)
    requires id in t.db.identities && r.IdentityLogin?
    ensures ColumnsFrom(t, r, Handle(k, t, r).t, id)
  {
    hide Replaces;
    NoChange(t, r, id);
  }

  lemma ColumnsOfManage(k: Checks, t: Tables, r: Request, id: Id)
    requires id in t.db.identities && r.ManageMfa?
    ensures ColumnsFrom(t, r, Handle(k, t, r).t, id)
  {
    hide Replaces;
    NoChange(t, r, id);
  }

  /** Equal but for the marker, the counter and the lock. */
  predicate SameColumns(a: Db, b: Db) {
    && a.identities.Keys == b.identities.Keys
    && forall i :: i in a.identities ==>
         b.identities[i] == a.identities[i].(lastStep := b.identities[i].lastStep, failed := b.identities[i].failed,
                                             lockedUntil := b.identities[i].lockedUntil)
  }

  lemma VerifyKeepsColumns(c: Crypto, db: Db, id: Id, row: Identity, code: string, codeRow: Id, now: nat)
    ensures SameColumns(db, VerifySpec(c, db, id, row, code, codeRow, now).0)
  {
    hide VerifyPlan;
  }

  lemma CountKeepsColumns(was: Db, db: Db, token: Token, id: Id, loaded: Identity, now: nat)
    requires SameColumns(was, db)
    ensures SameColumns(was, RegisterFailed(IncrementAttempts(db, token), id, loaded, now))
  {
    assert IncrementAttempts(db, token).identities == db.identities;
    hide IncrementAttempts;
  }

  lemma ClearKeepsColumns(was: Db, db: Db, token: Token, id: Id)
    requires SameColumns(was, db)
    ensures SameColumns(was, ClearFailed(DeleteChallenge(db, token), id))
  {
  }

  lemma DropKeepsColumns(db: Db, token: Token)
    ensures SameColumns(db, db) && SameColumns(db, DeleteChallenge(db, token))
  {
  }

  lemma MfaKeepsColumns(k: Checks, t: Tables, r: Request)
    requires r.MfaLogin?
    ensures SameColumns(t.db, Handle(k, t, r).t.db)
  {
    hide VerifySpec, CheckGates, SameColumns, RegisterFailed, IncrementAttempts, ClearFailed, DeleteChallenge;
    DropKeepsColumns(t.db, r.token);
    if r.token in t.db.challenges && IsUser(t, t.db.challenges[r.token].user) {
      var i := t.db.users[t.db.challenges[r.token].user].identity;
      var row := t.db.identities[i];
      VerifyKeepsColumns(k.crypto, t.db, i, row, r.code, r.codeRow, r.now);
      var db := VerifySpec(k.crypto, t.db, i, row, r.code, r.codeRow, r.now).0;
      CountKeepsColumns(t.db, db, r.token, i, row, r.later);
      ClearKeepsColumns(t.db, db, r.token, i);
    }
  }

  lemma ColumnsOfMfa(k: Checks, t: Tables, r: Request, id: Id)
    requires id in t.db.identities && r.MfaLogin?
    ensures ColumnsFrom(t, r, Handle(k, t, r).t, id)
  {
    hide Handle, Replaces;
    NoChange(t, r, id);
    MfaKeepsColumns(k, t, r);
  }

  // ---------------------------------------------------------------- runs

  /** After request `i`, an accepted change of this identity's password to `hash`, requests up to `j`
      write no other password to it. */
  predicate Untouched(k: Checks, t: Tables, rs: seq<Request>, i: nat, j: nat, id: Id, hash: string)
    requires i < j <= |rs|
  {
    && Replaces(Before(k, t, rs, i), rs[i], id) && rs[i].newHash == hash
    && forall h: nat :: i < h < j ==> !Overwrites(Before(k, t, rs, h), rs[h], id, hash)
  }

  predicate Overwrites(t: Tables, r: Request, id: Id, hash: string) {
    || (Replaces(t, r, id) && r.newHash != hash)
    || (Writes(t, r, id) && r.row.password != Some(hash))
  }

  predicate Holds(t: Tables, id: Id, hash: string) { id in t.db.identities && t.db.identities[id].password == Some(hash) }

  lemma HoldsStep(k: Checks, t: Tables, r: Request, id: Id, hash: string)
    requires Holds(t, id, hash) && !Overwrites(t, r, id, hash)
    ensures Holds(Handle(k, t, r).t, id, hash)
  {
    hide Handle, Replaces, Writes;
    ColumnsStep(k, t, r, id);
  }

  lemma HoldsFirst(k: Checks, t: Tables, r: Request, id: Id)
    requires Replaces(t, r, id)
    ensures Holds(Handle(k, t, r).t, id, r.newHash)
  {
    hide Handle;
    ColumnsStep(k, t, r, id);
  }

  lemma AfterNext(k: Checks, t: Tables, rs: seq<Request>, n: nat)
    requires n < |rs|
    ensures After(k, t, rs[..n + 1]) == Handle(k, Before(k, t, rs, n), rs[n]).t
  {
    hide Handle;
    assert rs[..n + 1][..n] == rs[..n];
  }

  /** The new hash stays the identity's password until another one is written. */
  lemma {:induction false} NewPasswordStays(k: Checks, t: Tables, rs: seq<Request>, i: nat, j: nat, id: Id, hash: string)
    requires i < j <= |rs| && Untouched(k, t, rs, i, j, id, hash)
    ensures Holds(After(k, t, rs[..j]), id, hash)
    decreases j
  {
    hide Handle, Replaces, Overwrites, After;
    var n := j - 1;
    AfterNext(k, t, rs, n);
    if n == i {
      HoldsFirst(k, Before(k, t, rs, i), rs[i], id);
    } else {
      NewPasswordStays(k, t, rs, i, n, id, hash);
      HoldsStep(k, Before(k, t, rs, n), rs[n], id, hash);
    }
  }

  /** Until then a password login of any membership of the identity, allowed and with the gates open,
      passes the first factor exactly with a password the new hash accepts, and is otherwise counted
      as a failure. */
  lemma NewPasswordRules(k: Checks, t: Tables, rs: seq<Request>, i: nat, j: nat, id: Id, hash: string)
    requires i < j < |rs| && Untouched(k, t, rs, i, j, id, hash) && rs[j].PasswordLogin? && rs[j].allowed
    requires var t' := Before(k, t, rs, j);
             && rs[j].user in t'.db.users && t'.db.users[rs[j].user].identity == id && id in t'.db.identities
             && CheckGates(t'.db.users[rs[j].user], t'.db.identities[id], rs[j].now).None?
    ensures FirstFactor(k, Before(k, t, rs, j), rs[j], rs[j].user) <==> k.password(hash, rs[j].password)
    ensures DoneAt(k, t, rs, j).cleared == Some(id) <==> k.password(hash, rs[j].password)
    ensures DoneAt(k, t, rs, j).outcome == WrongCredential(id) <==> !k.password(hash, rs[j].password)
  {
    NewPasswordStays(k, t, rs, i, j, id, hash);
    OpenLogin(k, Before(k, t, rs, j), rs[j], id, hash);
  }

  lemma OpenLogin(k: Checks, t: Tables, r: Request, id: Id, hash: string)
    requires Holds(t, id, hash) && r.PasswordLogin? && r.allowed
    requires r.user in t.db.users && t.db.users[r.user].identity == id && CheckGates(t.db.users[r.user], t.db.identities[id], r.now).None?
    ensures FirstFactor(k, t, r, r.user) <==> k.password(hash, r.password)
    ensures Handle(k, t, r).cleared == Some(id) <==> k.password(hash, r.password)
    ensures Handle(k, t, r).outcome == WrongCredential(id) <==> !k.password(hash, r.password)
  {
    hide CheckGates, InsertChange, InsertChallenge, PurgeChallenges;
  }

  /** Likewise at the tenant-less login. */
  lemma NewPasswordSignsIn(k: Checks, t: Tables, rs: seq<Request>, i: nat, j: nat, id: Id, hash: string)
    requires i < j < |rs| && Untouched(k, t, rs, i, j, id, hash) && rs[j].IdentityLogin? && rs[j].id == id
    requires var row := Before(k, t, rs, j).db.identities; id in row && row[id].active && !LockedAt(row[id], rs[j].now)
    ensures DoneAt(k, t, rs, j).outcome == if k.password(hash, rs[j].password) then SignedIn(id) else WrongCredential(id)
  {
    hide After;
    NewPasswordStays(k, t, rs, i, j, id, hash);
  }

  // ---------------------------------------------------------------- a change token is spent once

  /** Every pending change token was issued. */
  predicate ChangesKnown(t: Tables) { t.changes.Keys <= t.issued }

  /** Issued, and not pending any more. */
  predicate Spent(t: Tables, c: Token) { c in t.issued && c !in t.changes }

  lemma ChangesStep(k: Checks, t: Tables, r: Request)
    ensures ChangesKnown(t) ==> ChangesKnown(Handle(k, t, r).t)
    ensures forall c :: Spent(t, c) ==> Spent(Handle(k, t, r).t, c)
  {
    hide CheckGates, VerifySpec, InsertChallenge, PurgeChallenges, RegisterFailed, ClearFailed, IncrementAttempts;
  }

  lemma {:induction false} ChangesAlwaysKnown(k: Checks, t: Tables, rs: seq<Request>)
    requires ChangesKnown(t)
    ensures ChangesKnown(After(k, t, rs))
    decreases |rs|
  {
    hide Handle, ChangesKnown;
    if rs != [] {
      ChangesAlwaysKnown(k, t, rs[..|rs| - 1]);
      ChangesStep(k, After(k, t, rs[..|rs| - 1]), rs[|rs| - 1]);
    }
  }

  lemma {:induction false} StaysSpent(k: Checks, t: Tables, rs: seq<Request>, i: nat, j: nat)
    requires ChangesKnown(t) && i < j <= |rs| && MayReplace(Before(k, t, rs, i), rs[i])
    ensures Spent(After(k, t, rs[..j]), rs[i].change)
    decreases j
  {
    hide Handle, After;
    var n := j - 1;
    AfterNext(k, t, rs, n);
    ChangesStep(k, Before(k, t, rs, n), rs[n]);
    if n == i {
      ChangesAlwaysKnown(k, t, rs[..i]);
      ChangeStores(k, Before(k, t, rs, i), rs[i]);
    } else {
      StaysSpent(k, t, rs, i, n);
    }
  }

  /** Two accepted changes of a run spend different tokens. */
  lemma ChangeTokensOnce(k: Checks, t: Tables, rs: seq<Request>, i: nat, j: nat)
    requires ChangesKnown(t) && i < j < |rs|
    requires MayReplace(Before(k, t, rs, i), rs[i]) && MayReplace(Before(k, t, rs, j), rs[j])
    ensures rs[i].change != rs[j].change
  {
    hide After;
    StaysSpent(k, t, rs, i, j);
  }
}
