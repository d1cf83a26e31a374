/** Where sessions come from: the exact condition under which a request mints one, and over whole
    runs the first factor behind every session. */
module LoginTrace {
  import opened Prelude
  import opened Mfa
  import opened Auth
  import opened Lockout

  // ---------------------------------------------------------------- one request

  /** The member a request is about. */
  function UserOf(t: Tables, r: Request): Option<Id> {
    match r
    case PasswordLogin(user, _, _, _, _, _) => Some(user)
    case GatedLogin(user, _, _, _) => Some(user)
    case ForceChange(change, _, _, _, _) => if change in t.changes then Some(t.changes[change].user) else None
    case MfaLogin(token, _, _, _, _) => if token in t.db.challenges then Some(t.db.challenges[token].user) else None
    case _ => None
  }

  predicate IsUser(t: Tables, user: Id) { user in t.db.users && t.db.users[user].identity in t.db.identities }

  function RowOf(t: Tables, user: Id): Identity
    requires IsUser(t, user)
  {
    t.db.identities[t.db.users[user].identity]
  }

  /** The first factor of a request, checked on the tables before it: a right password or another
      verified proof with the gates open, or a live change token before the access expires. */
  predicate FirstFactor(k: Checks, t: Tables, r: Request, user: Id)
    requires IsUser(t, user)
  {
    && UserOf(t, r) == Some(user)
    && match r
       case PasswordLogin(_, allowed, password, now, _, _) =>
         CheckGates(t.db.users[user], RowOf(t, user), now).None? && allowed && RightPassword(k, RowOf(t, user), password)
       case GatedLogin(_, allowed, now, _) => CheckGates(t.db.users[user], RowOf(t, user), now).None? && allowed
       case ForceChange(change, accepted, _, now, _) =>
         && change in t.changes && now < t.changes[change].expires && accepted
         && (t.db.users[user].validUntil.Some? ==> now <= t.db.users[user].validUntil.value)
       case _ => false
  }

  /** A password change is still due after the first factor of `r`. */
  predicate ChangeDue(row: Identity, r: Request) { row.forceChange && !r.ForceChange? }

  /** What a session takes, in terms of the request and the tables before it. */
  predicate MayEnter(k: Checks, t: Tables, r: Request, user: Id) {
    && UserOf(t, r) == Some(user) && IsUser(t, user)
    && if r.MfaLogin? then SecondFactor(k, t, r, t.db.users[user].identity)
       else FirstFactor(k, t, r, user) && !RowOf(t, user).mfaEnabled && !ChangeDue(RowOf(t, user), r)
  }

  /** What a challenge takes. */
  predicate MayChallenge(k: Checks, t: Tables, r: Request, user: Id) {
    && UserOf(t, r) == Some(user) && IsUser(t, user)
    && FirstFactor(k, t, r, user) && RowOf(t, user).mfaEnabled && !ChangeDue(RowOf(t, user), r)
  }

  /** What a change token takes. */
  predicate MayChange(k: Checks, t: Tables, r: Request, user: Id) {
    && UserOf(t, r) == Some(user) && IsUser(t, user)
    && FirstFactor(k, t, r, user) && ChangeDue(RowOf(t, user), r)
  }

  lemma {:induction false} SessionIff(k: Checks, t: Tables, r: Request, user: Id)
    ensures Handle(k, t, r).outcome == Session(user) <==> MayEnter(k, t, r, user)
  {
    hide VerifySpec, RegisterFailed, IncrementAttempts, ClearFailed, InsertChange, CheckGates, InsertChallenge, PurgeChallenges;
  }

  lemma {:induction false} ChallengeIff(k: Checks, t: Tables, r: Request, token: Token)
    ensures Handle(k, t, r).outcome == MfaRequired(token) <==>
              && (r.PasswordLogin? || r.GatedLogin? || r.ForceChange?) && r.token == token && token !in t.issued
              && UserOf(t, r).Some? && MayChallenge(k, t, r, UserOf(t, r).value)
  {
    hide VerifySpec, RegisterFailed, IncrementAttempts, ClearFailed, InsertChange, CheckGates, InsertChallenge, PurgeChallenges;
  }

  lemma {:induction false} ChangeIff(k: Checks, t: Tables, r: Request, token: Token)
    ensures Handle(k, t, r).outcome == ChangeRequired(token) <==>
              && (r.PasswordLogin? || r.GatedLogin?) && r.token == token && token !in t.issued
              && UserOf(t, r).Some? && MayChange(k, t, r, UserOf(t, r).value)
  {
    hide VerifySpec, RegisterFailed, IncrementAttempts, ClearFailed, InsertChange, CheckGates, InsertChallenge, PurgeChallenges;
  }

  /** Sessions are minted with closed gates by forced changes only, and there exactly for members or
      identities that are inactive or locked. */
  lemma ClosedGatesIff(k: Checks, t: Tables, r: Request, user: Id)
    requires Handle(k, t, r).outcome == Session(user)
    ensures IsUser(t, user)
    ensures var m := t.db.users[user]; var row := RowOf(t, user);
            (r.PasswordLogin? || r.GatedLogin? || r.MfaLogin? || r.ForceChange?)
            && (CheckGates(m, row, r.now).Some? <==>
                  r.ForceChange? && (!m.active || !row.active || LockedAt(row, r.now)))
  {
    hide Handle, VerifySpec;
    SessionIff(k, t, r, user);
  }

  /** A run after which an inactive member of an inactive identity has a session: a login that
      required a password change, both accounts switched off, then the change. */
  lemma InactiveMemberEnters(k: Checks)
    ensures var on := Identity(true, None, true, false, None, None, 0, None);
            var t := Tables(Db(map[1 := on], map[], map[], map[2 := Member("t", 1, true, None)]), map[], {});
            var rs := [GatedLogin(2, true, 0, "c"), Elsewhere(1, on.(active := false)), ChangeUser(2, Member("t", 1, false, None))];
            var t' := After(k, t, rs);
            && 2 in t'.db.users && 1 in t'.db.identities && !t'.db.users[2].active && !t'.db.identities[1].active
            && Handle(k, t', ForceChange("c", true, "new", 1, "s")).outcome == Session(2)
  {
    var on := Identity(true, None, true, false, None, None, 0, None);
    var t := Tables(Db(map[1 := on], map[], map[], map[2 := Member("t", 1, true, None)]), map[], {});
    var a, b, c := GatedLogin(2, true, 0, "c"), Elsewhere(1, on.(active := false)), ChangeUser(2, Member("t", 1, false, None));
    assert [a, b, c][..2] == [a, b] && [a, b][..1] == [a] && [a][..0] == [];
    assert After(k, t, [a]) == Handle(k, t, a).t;
    assert After(k, t, [a, b]) == Handle(k, After(k, t, [a]), b).t;
    assert After(k, t, [a, b, c]) == Handle(k, After(k, t, [a, b]), c).t;
  }

  /** A pending challenge within its five minutes and its five attempts, of a member of this identity
      whose gates are open: what it takes for a second factor to be looked at. */
  predicate Answerable(t: Tables, r: Request, id: Id) {
    && r.MfaLogin? && r.token in t.db.challenges
    && r.now < t.db.challenges[r.token].expires && t.db.challenges[r.token].attempts < 5
    && IsUser(t, t.db.challenges[r.token].user) && t.db.users[t.db.challenges[r.token].user].identity == id
    && CheckGates(t.db.users[t.db.challenges[r.token].user], t.db.identities[id], r.now).None?
  }

  /** A wrong password or a wrong second factor is counted against the identity exactly with the
      gates open and the method allowed. */
  lemma WrongIff(k: Checks, t: Tables, r: Request, id: Id)
    ensures Handle(k, t, r).outcome == WrongCredential(id) <==>
              || (r.PasswordLogin? && IsUser(t, r.user) && t.db.users[r.user].identity == id && r.allowed
                  && CheckGates(t.db.users[r.user], t.db.identities[id], r.now).None?
                  && t.db.identities[id].password.Some? && !k.password(t.db.identities[id].password.value, r.password))
              || (r.IdentityLogin? && r.id == id && id in t.db.identities
                  && t.db.identities[id].active && !LockedAt(t.db.identities[id], r.now)
                  && t.db.identities[id].password.Some? && !k.password(t.db.identities[id].password.value, r.password))
              || (Answerable(t, r, id)
                  && !VerifySpec(k.crypto, t.db, id, t.db.identities[id], r.code, r.codeRow, r.now).1)
  {
    hide VerifySpec, RegisterFailed, IncrementAttempts, ClearFailed, InsertChange, CheckGates, InsertChallenge, PurgeChallenges;
  }

  lemma SignedInIff(k: Checks, t: Tables, r: Request, id: Id)
    ensures Handle(k, t, r).outcome == SignedIn(id) <==>
              && r.IdentityLogin? && r.id == id && id in t.db.identities
              && t.db.identities[id].active && !LockedAt(t.db.identities[id], r.now)
              && RightPassword(k, t.db.identities[id], r.password)
  {
    hide VerifySpec, RegisterFailed, IncrementAttempts, ClearFailed, InsertChange, CheckGates, InsertChallenge, PurgeChallenges;
  }

  lemma TooManyIff(k: Checks, t: Tables, r: Request)
    ensures Handle(k, t, r).outcome == Refused(TooManyAttempts) <==>
              r.MfaLogin? && r.token in t.db.challenges && r.now < t.db.challenges[r.token].expires
              && t.db.challenges[r.token].attempts >= 5
  {
    hide VerifySpec, RegisterFailed, IncrementAttempts, ClearFailed, InsertChange, InsertChallenge, PurgeChallenges;
  }

  /** A refused request changes nothing, except that running out of attempts deletes the challenge. */
  lemma RefusedKeeps(k: Checks, t: Tables, r: Request)
    requires Handle(k, t, r).outcome.Refused?
    requires r.PasswordLogin? || r.GatedLogin? || r.ForceChange? ==> r.token !in t.issued
    ensures Handle(k, t, r).t == if Handle(k, t, r).outcome == Refused(TooManyAttempts) then
                                   t.(db := t.db.(challenges := t.db.challenges - {r.token}))
                                 else t
  {
    hide VerifySpec, RegisterFailed, IncrementAttempts, ClearFailed, InsertChange, InsertChallenge, PurgeChallenges;
  }

  /** The reason is the first that applies: the member, the gates, the method, the proof. */
  lemma RefusalIs(k: Checks, t: Tables, r: Request, why: Refusal)
    requires Handle(k, t, r).outcome == Refused(why)
    requires r.PasswordLogin? || r.GatedLogin? ==> r.token !in t.issued
    ensures r.PasswordLogin? || r.GatedLogin? ==>
              if !IsUser(t, r.user) then why == NotFound
              else
                var gate := CheckGates(t.db.users[r.user], RowOf(t, r.user), r.now);
                if gate.Some? then why == gate.value
                else if !r.allowed then why == MethodNotAllowed
                else r.PasswordLogin? && RowOf(t, r.user).password.None? && why == BadRequest
    ensures r.IdentityLogin? ==>
              if r.id !in t.db.identities then why == NotFound
              else
                var row := t.db.identities[r.id];
                if !row.active then why == NotActive
                else if LockedAt(row, r.now) then why == Locked
                else row.password.None? && why == BadRequest
    ensures r.MfaLogin? ==>
              if r.token !in t.db.challenges || t.db.challenges[r.token].expires <= r.now then why == BadToken
              else if t.db.challenges[r.token].attempts >= 5 then why == TooManyAttempts
              else
                var user := t.db.challenges[r.token].user;
                if !IsUser(t, user) then why == BadToken
                else CheckGates(t.db.users[user], RowOf(t, user), r.now) == Some(why)
  {
    hide VerifySpec, RegisterFailed, IncrementAttempts, ClearFailed, InsertChange, InsertChallenge, PurgeChallenges, CheckGates;
  }

  /** What the requests outside the login code write. */
  lemma OutsideIs(k: Checks, t: Tables, r: Request, id: Id)
    ensures r.SignUp? && id == r.id && id !in t.db.identities ==>
              Handle(k, t, r).t.db.identities == t.db.identities[id := r.row.(failed := 0, lockedUntil := None)]
    ensures r.ManageMfa? && id == r.id && id in t.db.identities && r.issued.Keys !! t.db.codes.Keys ==>
              CodesReplaced(t.db, Handle(k, t, r).t.db, id, r.issued)
    ensures r.ChangeUser? ==> Handle(k, t, r).t == t.(db := t.db.(users := t.db.users[r.user := r.member]))
  {
    if r.ManageMfa? && id == r.id && id in t.db.identities && r.issued.Keys !! t.db.codes.Keys {
      EnrollmentWrites(ElsewhereSpec(t, id, r.row).t.db, id, "", r.issued);
    }
  }

  /** Of the challenges, a completed second factor deletes its own, a wrong one adds an attempt to it,
      and neither touches another. */
  lemma SecondFactorEffect(k: Checks, t: Tables, r: Request, id: Id)
    requires Answerable(t, r, id)
    ensures var d := Handle(k, t, r); var ch := t.db.challenges[r.token];
            && (d.outcome == Session(ch.user) || d.outcome == WrongCredential(id))
            && (r.token in d.t.db.challenges <==> d.outcome == WrongCredential(id))
            && (r.token in d.t.db.challenges ==> d.t.db.challenges[r.token] == Challenge(ch.user, ch.attempts + 1, ch.expires))
            && forall other :: other != r.token ==>
                 (other in d.t.db.challenges <==> other in t.db.challenges)
                 && (other in t.db.challenges ==> d.t.db.challenges[other] == t.db.challenges[other])
  {
    hide VerifySpec, CheckGates;
    VerifyKeeps(k.crypto, t.db, id, t.db.identities[id], r.code, r.codeRow, r.now);
  }

  // ---------------------------------------------------------------- runs

  /** The tables request `i` of a run meets, and what it does. */
  function Before(k: Checks, t: Tables, rs: seq<Request>, i: nat): Tables
    requires i < |rs|
  {
    After(k, t, rs[..i])
  }

  function DoneAt(k: Checks, t: Tables, rs: seq<Request>, i: nat): Done
    requires i < |rs|
  {
    Handle(k, Before(k, t, rs, i), rs[i])
  }

  function Clock(r: Request): nat {
    match r
    case SignUp(_, _) => 0
    case ManageMfa(_, _, _) => 0
    case Elsewhere(_, _) => 0
    case ChangeUser(_, _) => 0
    case _ => r.now
  }

  /** Nothing pending at the start. */
  predicate Clean(t: Tables) { t.db.challenges == map[] && t.changes == map[] }

  /** Request `i` issued this challenge to this member, to expire then. */
  predicate Challenged(k: Checks, t: Tables, rs: seq<Request>, i: nat, token: Token, user: Id, expires: int) {
    && i < |rs| && DoneAt(k, t, rs, i).outcome == MfaRequired(token)
    && UserOf(Before(k, t, rs, i), rs[i]) == Some(user) && expires == Clock(rs[i]) + 300
  }

  predicate ToldToChange(k: Checks, t: Tables, rs: seq<Request>, i: nat, token: Token, user: Id, expires: int) {
    && i < |rs| && DoneAt(k, t, rs, i).outcome == ChangeRequired(token)
    && UserOf(Before(k, t, rs, i), rs[i]) == Some(user) && expires == Clock(rs[i]) + 900
  }

  /** Where a pending challenge comes from: it was there, or this request issued it. */
  predicate ChallengeFrom(t: Tables, r: Request, d: Done, token: Token)
    requires token in d.t.db.challenges
  {
    var ch := d.t.db.challenges[token];
    || (token in t.db.challenges && t.db.challenges[token].user == ch.user && t.db.challenges[token].expires == ch.expires)
    || (d.outcome == MfaRequired(token) && UserOf(t, r) == Some(ch.user) && ch.expires == Clock(r) + 300)
  }

  lemma ChallengeStep(k: Checks, t: Tables, r: Request, token: Token)
    requires token in Handle(k, t, r).t.db.challenges
    ensures ChallengeFrom(t, r, Handle(k, t, r), token)
  {
    hide *;
    if r.MfaLogin? {
      MfaChallengeStep(k, t, r, token);
    } else if r.PasswordLogin? || r.GatedLogin? {
      LoginChallengeStep(k, t, r, token);
    } else {
      OtherChallengeStep(k, t, r, token);
    }
  }

  lemma LoginChallengeStep(k: Checks, t: Tables, r: Request, token: Token)
    requires (r.PasswordLogin? || r.GatedLogin?) && token in Handle(k, t, r).t.db.challenges
    ensures ChallengeFrom(t, r, Handle(k, t, r), token)
  {
    hide CheckGates, InsertChange;
  }

  lemma OtherChallengeStep(k: Checks, t: Tables, r: Request, token: Token)
    requires !r.PasswordLogin? && !r.GatedLogin? && !r.MfaLogin? && token in Handle(k, t, r).t.db.challenges
    ensures ChallengeFrom(t, r, Handle(k, t, r), token)
  {
    hide CheckGates, InsertChange;
  }

  lemma MfaChallengeStep(k: Checks, t: Tables, r: Request, token: Token)
    requires r.MfaLogin? && token in Handle(k, t, r).t.db.challenges
    ensures ChallengeFrom(t, r, Handle(k, t, r), token)
  {
    hide VerifySpec, CheckGates;
    if r.token in t.db.challenges && t.db.challenges[r.token].user in t.db.users
       && t.db.users[t.db.challenges[r.token].user].identity in t.db.identities {
      var i := t.db.users[t.db.challenges[r.token].user].identity;
      VerifyKeeps(k.crypto, t.db, i, t.db.identities[i], r.code, r.codeRow, r.now);
    }
  }

  lemma ChangeStep(k: Checks, t: Tables, r: Request, token: Token)
    requires token in Handle(k, t, r).t.changes
    ensures var d := Handle(k, t, r); var ch := d.t.changes[token];
            || (token in t.changes && t.changes[token] == ch)
            || (d.outcome == ChangeRequired(token) && UserOf(t, r) == Some(ch.user) && ch.expires == Clock(r) + 900)
  {
    hide CheckGates, VerifySpec, InsertChallenge, PurgeChallenges, RegisterFailed, ClearFailed, IncrementAttempts;
  }

  ghost predicate ChallengeTraced(k: Checks, t: Tables, rs: seq<Request>, token: Token, ch: Challenge) {
    exists i: nat :: Challenged(k, t, rs, i, token, ch.user, ch.expires)
  }

  ghost predicate ChangeTraced(k: Checks, t: Tables, rs: seq<Request>, token: Token, ch: Change) {
    exists i: nat :: ToldToChange(k, t, rs, i, token, ch.user, ch.expires)
  }

  lemma TraceStays(k: Checks, t: Tables, rs: seq<Request>, n: nat, token: Token)
    requires n <= |rs|
    ensures forall ch :: ChallengeTraced(k, t, rs[..n], token, ch) ==> ChallengeTraced(k, t, rs, token, ch)
    ensures forall ch :: ChangeTraced(k, t, rs[..n], token, ch) ==> ChangeTraced(k, t, rs, token, ch)
  {
    hide Handle, UserOf, Clock;
    forall i: nat | i < n ensures rs[..n][..i] == rs[..i] {
    }
    forall ch | ChallengeTraced(k, t, rs[..n], token, ch) ensures ChallengeTraced(k, t, rs, token, ch) {
      var i: nat :| Challenged(k, t, rs[..n], i, token, ch.user, ch.expires);
      assert Challenged(k, t, rs, i, token, ch.user, ch.expires);
    }
    forall ch | ChangeTraced(k, t, rs[..n], token, ch) ensures ChangeTraced(k, t, rs, token, ch) {
      var i: nat :| ToldToChange(k, t, rs[..n], i, token, ch.user, ch.expires);
      assert ToldToChange(k, t, rs, i, token, ch.user, ch.expires);
    }
  }

  /** Every challenge and every change token pending after a run was issued in it. */
  lemma {:induction false} PendingTraced(k: Checks, t: Tables, rs: seq<Request>, token: Token)
    requires Clean(t)
    ensures token in After(k, t, rs).db.challenges ==> ChallengeTraced(k, t, rs, token, After(k, t, rs).db.challenges[token])
    ensures token in After(k, t, rs).changes ==> ChangeTraced(k, t, rs, token, After(k, t, rs).changes[token])
    decreases |rs|
  {
    hide Handle, UserOf, Clock;
    if rs != [] {
      var n := |rs| - 1;
      var t' := After(k, t, rs[..n]);
      PendingTraced(k, t, rs[..n], token);
      TraceStays(k, t, rs, n, token);
      if token in After(k, t, rs).db.challenges {
        var ch := After(k, t, rs).db.challenges[token];
        ChallengeStep(k, t', rs[n], token);
        assert Challenged(k, t, rs, n, token, ch.user, ch.expires) || ChallengeTraced(k, t, rs[..n], token, ch);
      }
      if token in After(k, t, rs).changes {
        var ch := After(k, t, rs).changes[token];
        ChangeStep(k, t', rs[n], token);
        assert ToldToChange(k, t, rs, n, token, ch.user, ch.expires) || ChangeTraced(k, t, rs[..n], token, ch);
      }
    }
  }

  // ---------------------------------------------------------------- main result

  /** Request `i` is a password login, OTP login, OAuth login or tenant selection by this member,
      with its proof right and the gates open. */
  predicate SignsIn(k: Checks, t: Tables, rs: seq<Request>, i: nat, user: Id) {
    && i < |rs| && (rs[i].PasswordLogin? || rs[i].GatedLogin?)
    && IsUser(Before(k, t, rs, i), user) && FirstFactor(k, Before(k, t, rs, i), rs[i], user)
  }

  /** Request `i` changes the password with a token that a sign-in of the same member, with a change
      due, was given less than fifteen minutes earlier. */
  ghost predicate ChangesPassword(k: Checks, t: Tables, rs: seq<Request>, i: nat, user: Id) {
    && i < |rs| && rs[i].ForceChange?
    && IsUser(Before(k, t, rs, i), user) && FirstFactor(k, Before(k, t, rs, i), rs[i], user)
    && exists h: nat :: h < i && SignsIn(k, t, rs, h, user) && RowOf(Before(k, t, rs, h), user).forceChange
         && DoneAt(k, t, rs, h).outcome == ChangeRequired(rs[i].change) && Clock(rs[i]) < Clock(rs[h]) + 900
  }

  /** Request `i` passed the first factor for this member, with or without a password change. */
  ghost predicate Rooted(k: Checks, t: Tables, rs: seq<Request>, i: nat, user: Id) {
    SignsIn(k, t, rs, i, user) || ChangesPassword(k, t, rs, i, user)
  }

  /** Request `j` completes a challenge that another request, which passed the first factor for the
      same member with MFA on and no change due, was given less than five minutes earlier. */
  ghost predicate Completes(k: Checks, t: Tables, rs: seq<Request>, j: nat, user: Id) {
    && j < |rs| && rs[j].MfaLogin?
    && IsUser(Before(k, t, rs, j), user)
    && SecondFactor(k, Before(k, t, rs, j), rs[j], Before(k, t, rs, j).db.users[user].identity)
    && exists i: nat :: i < j && Rooted(k, t, rs, i, user)
         && RowOf(Before(k, t, rs, i), user).mfaEnabled && !ChangeDue(RowOf(Before(k, t, rs, i), user), rs[i])
         && DoneAt(k, t, rs, i).outcome == MfaRequired(rs[j].token) && Clock(rs[j]) < Clock(rs[i]) + 300
  }

  lemma RootedAt(k: Checks, t: Tables, rs: seq<Request>, i: nat, user: Id)
    requires Clean(t) && i < |rs| && IsUser(Before(k, t, rs, i), user) && FirstFactor(k, Before(k, t, rs, i), rs[i], user)
    ensures Rooted(k, t, rs, i, user)
  {
    hide Handle, CheckGates, RightPassword;
    if rs[i].ForceChange? {
      var t' := Before(k, t, rs, i);
      PendingTraced(k, t, rs[..i], rs[i].change);
      var ch := t'.changes[rs[i].change];
      var h: nat :| ToldToChange(k, t, rs[..i], h, rs[i].change, ch.user, ch.expires);
      assert rs[..i][..h] == rs[..h];
      ChangeIff(k, Before(k, t, rs, h), rs[h], rs[i].change);
      assert SignsIn(k, t, rs, h, user);
    }
  }

  /** Two factors over every run: each session belongs to a request that itself passed the first
      factor with MFA off and no change due, or completes the challenge of one that did. */
  lemma {:induction false} SessionTrace(k: Checks, t: Tables, rs: seq<Request>, j: nat, user: Id)
    requires Clean(t) && j < |rs| && DoneAt(k, t, rs, j).outcome == Session(user)
    ensures !rs[j].MfaLogin? ==>
              Rooted(k, t, rs, j, user) && IsUser(Before(k, t, rs, j), user)
              && !RowOf(Before(k, t, rs, j), user).mfaEnabled && !ChangeDue(RowOf(Before(k, t, rs, j), user), rs[j])
    ensures rs[j].MfaLogin? ==> Completes(k, t, rs, j, user)
  {
    hide Handle, CheckGates, VerifySpec, FirstFactor;
    var t' := Before(k, t, rs, j);
    SessionIff(k, t', rs[j], user);
    if rs[j].MfaLogin? {
      PendingTraced(k, t, rs[..j], rs[j].token);
      var ch := t'.db.challenges[rs[j].token];
      var i: nat :| Challenged(k, t, rs[..j], i, rs[j].token, ch.user, ch.expires);
      assert rs[..j][..i] == rs[..i];
      ChallengeIff(k, Before(k, t, rs, i), rs[i], rs[j].token);
      RootedAt(k, t, rs, i, user);
    } else {
      RootedAt(k, t, rs, j, user);
    }
  }

  /** What issuing a challenge does to the others: live ones stay as they were, expired ones go. */
  lemma ChallengeEffect(k: Checks, t: Tables, r: Request)
    requires TokensKnown(t) && Handle(k, t, r).outcome.MfaRequired?
    ensures var token := Handle(k, t, r).outcome.token; var after := Handle(k, t, r).t.db.challenges;
            && UserOf(t, r).Some? && token in after && after[token] == Challenge(UserOf(t, r).value, 0, Clock(r) + 300)
            && forall other :: other != token ==>
                 (other in after <==> other in t.db.challenges && t.db.challenges[other].expires > Clock(r))
                 && (other in after ==> after[other] == t.db.challenges[other])
  {
    hide CheckGates, InsertChange, VerifySpec;
  }

  /** A new change token is the user's, for fifteen minutes, and replaces that user's others. */
  lemma ChangeEffect(k: Checks, t: Tables, r: Request)
    requires TokensKnown(t) && Handle(k, t, r).outcome.ChangeRequired?
    ensures var token := Handle(k, t, r).outcome.token; var after := Handle(k, t, r).t.changes;
            && UserOf(t, r).Some? && token in after && after[token] == Change(UserOf(t, r).value, Clock(r) + 900)
            && forall other :: other != token ==>
                 (other in after <==> other in t.changes && t.changes[other].user != UserOf(t, r).value)
                 && (other in after ==> after[other] == t.changes[other])
  {
    hide CheckGates, InsertChallenge, PurgeChallenges, VerifySpec;
  }
}
