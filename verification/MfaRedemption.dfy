/** What holds in every interleaving: sessions, redeemed challenges and spent second factors
    correspond one to one, and accepted time steps only go up. */
module MfaRedemption {
  import opened Prelude
  import opened Mfa
  import opened MfaInterleaving

  // ---------------------------------------------------------------- invariants of the tables and the log

  /** A challenge belongs to the user it was issued to, and a redeemed one is gone for good. */
  predicate TokensOk(s: State) {
    && (forall t :: t in s.db.challenges ==> t in s.issuedTo && s.db.challenges[t].user == s.issuedTo[t])
    && (forall i :: 0 <= i < |s.log| && s.log[i].Redeemed? ==>
          && s.log[i].token in s.issuedTo && s.issuedTo[s.log[i].token] == s.log[i].user
          && s.log[i].token !in s.db.challenges)
  }

  predicate RedeemedOnce(log: seq<Event>) {
    forall i, j :: 0 <= i < j < |log| && log[i].Redeemed? && log[j].Redeemed? ==> log[i].token != log[j].token
  }

  /** The replay marker has reached this step of this epoch. */
  predicate MarkerAt(s: State, id: Id, epoch: nat, step: nat) {
    epoch < Epoch(s, id)
    || (epoch == Epoch(s, id) && id in s.db.identities && s.db.identities[id].lastStep.Some?
        && s.db.identities[id].lastStep.value >= step)
  }

  predicate Marked(s: State, e: Event) {
    && (e.Accepted? && e.factor.TotpStep? ==> MarkerAt(s, e.factor.id, e.factor.epoch, e.factor.step))
    && (e.Confirmed? ==> MarkerAt(s, e.id, e.epoch, e.step))
  }

  predicate StepsOk(s: State) { forall i :: 0 <= i < |s.log| ==> Marked(s, s.log[i]) }

  /** A step accepted after another of the same epoch was used is a later step. */
  predicate Later(a: Event, b: Event) {
    b.Accepted? && b.factor.TotpStep? ==>
      && (a.Accepted? && a.factor.TotpStep? && a.factor.id == b.factor.id && a.factor.epoch == b.factor.epoch
          ==> a.factor.step < b.factor.step)
      && (a.Confirmed? && a.id == b.factor.id && a.epoch == b.factor.epoch ==> a.step < b.factor.step)
  }

  predicate StepsIncrease(log: seq<Event>) { forall i, j :: 0 <= i < j < |log| ==> Later(log[i], log[j]) }

  /** A spent backup-code row stays spent. */
  predicate CodesOk(s: State) {
    && s.db.codes.Keys <= s.usedRows
    && (forall i :: 0 <= i < |s.log| && s.log[i].Accepted? && s.log[i].factor.CodeRow? ==>
          && s.log[i].factor.row in s.usedRows
          && (s.log[i].factor.row in s.db.codes ==> s.db.codes[s.log[i].factor.row].consumed))
  }

  predicate CodesOnce(log: seq<Event>) {
    forall i, j :: 0 <= i < j < |log| && log[i].Accepted? && log[j].Accepted? && log[i].factor.CodeRow? ==>
      log[i].factor != log[j].factor
  }

  /** An accepted time step is within one of the clock that was read, and of the right identity. */
  predicate InWindow(log: seq<Event>) {
    forall i :: 0 <= i < |log| && log[i].Accepted? && log[i].factor.TotpStep? ==>
      && log[i].factor.id == log[i].id
      && log[i].now / 30 - 1 <= log[i].factor.step <= log[i].now / 30 + 1
  }

  ghost predicate TablesOk(s: State) {
    && TokensOk(s) && RedeemedOnce(s.log) && StepsOk(s) && StepsIncrease(s.log)
    && CodesOk(s) && CodesOnce(s.log) && InWindow(s.log)
  }

  /** What the programs guarantee about the statements they run. */
  predicate EffectOk(s: State, e: Effect) {
    match e
    case Issue(token, _, _, _) => token !in s.issuedTo
    case On(_, issued) => IssuedFresh(s, issued)
    case NewCodes(_, issued) => IssuedFresh(s, issued)
    case AcceptStep(id, k, now) => StepFresh(s.db, id, k) && now / 30 - 1 <= k <= now / 30 + 1
    case SpendCode(_, row, _) => row in s.db.codes && !s.db.codes[row].consumed
    case _ => true
  }

  lemma ProgramEffectOk(c: Crypto, s: State, task: Task, i: Input)
    ensures EffectOk(s, Program(c, s, task, i).0)
  {
    hide NormalizeCode;
  }

  // ---------------------------------------------------------------- statements keep the tables

  lemma DoTokens(s: State, req: Req, e: Effect)
    requires TokensOk(s) && RedeemedOnce(s.log) && EffectOk(s, e)
    ensures TokensOk(Do(s, req, e)) && RedeemedOnce(Do(s, req, e).log)
  {
    LogIs(s, req, e);
    ChallengesAre(s, req, e);
    hide Do, StepFresh, Epoch, IssuedFresh;
  }

  /** Which challenges a statement leaves, and whose they are. */
  lemma ChallengesAre(s: State, req: Req, e: Effect)
    ensures var after := Do(s, req, e).db.challenges;
            && (forall t :: t in after && !(e.Issue? && t == e.token) ==> t in s.db.challenges && after[t].user == s.db.challenges[t].user)
            && (e.Issue? ==> e.token in after && after[e.token].user == e.user)
            && (e.Remove? ==> e.token !in after)
  {
    hide StepFresh, Epoch;
  }

  /** Markers only move forward within an epoch, and epochs only go up. */
  predicate MarkersMove(s: State, s': State, id: Id) {
    || Epoch(s, id) < Epoch(s', id)
    || (Epoch(s, id) == Epoch(s', id)
        && (id in s.db.identities && s.db.identities[id].lastStep.Some? ==>
              id in s'.db.identities && s'.db.identities[id].lastStep.Some?
              && s.db.identities[id].lastStep.value <= s'.db.identities[id].lastStep.value))
  }

  lemma StepMarkers(s: State, req: Req, e: Effect, id: Id)
    requires e.AcceptStep? || e.ConfirmMark?
    ensures MarkersMove(s, Do(s, req, e), id)
  {
  }

  lemma ResetMarkers(s: State, req: Req, e: Effect, id: Id)
    requires e.Pending? || e.Off?
    ensures MarkersMove(s, Do(s, req, e), id)
  {
  }

  lemma SameMarkers(s: State, req: Req, e: Effect, id: Id)
    requires !e.AcceptStep? && !e.ConfirmMark? && !e.Pending? && !e.Off?
    ensures MarkersMove(s, Do(s, req, e), id)
  {
    hide MarkStep, StepFresh;
  }

  lemma DoMarkers(s: State, req: Req, e: Effect, id: Id)
    ensures MarkersMove(s, Do(s, req, e), id)
  {
    hide *;
    if e.AcceptStep? || e.ConfirmMark? {
      StepMarkers(s, req, e, id);
    } else if e.Pending? || e.Off? {
      ResetMarkers(s, req, e, id);
    } else {
      SameMarkers(s, req, e, id);
    }
  }

  lemma DoMarked(s: State, req: Req, e: Effect, old': Event)
    requires Marked(s, old')
    ensures Marked(Do(s, req, e), old')
  {
    hide Do, Epoch;
    if old'.Accepted? && old'.factor.TotpStep? {
      DoMarkers(s, req, e, old'.factor.id);
    } else if old'.Confirmed? {
      DoMarkers(s, req, e, old'.id);
    }
  }

  lemma DoSteps(s: State, req: Req, e: Effect)
    requires StepsOk(s) && StepsIncrease(s.log) && InWindow(s.log) && EffectOk(s, e)
    ensures StepsOk(Do(s, req, e)) && StepsIncrease(Do(s, req, e).log) && InWindow(Do(s, req, e).log)
  {
    var s' := Do(s, req, e);
    forall i | 0 <= i < |s.log| ensures Marked(s', s.log[i]) {
      DoMarked(s, req, e, s.log[i]);
    }
    LogGrowsByOne(s, req, e);
    hide Do;
    if |s'.log| > |s.log| {
      var n := s'.log[|s.log|];
      forall i | 0 <= i < |s.log| ensures Later(s.log[i], n) {
        NewEventLater(s, req, e, s.log[i]);
      }
    }
  }

  lemma LogGrowsByOne(s: State, req: Req, e: Effect)
    ensures s.log <= Do(s, req, e).log && |Do(s, req, e).log| <= |s.log| + 1
    ensures forall t :: t in s.issuedTo && EffectOk(s, e) ==> t in Do(s, req, e).issuedTo && Do(s, req, e).issuedTo[t] == s.issuedTo[t]
    ensures Do(s, req, e).tasks == s.tasks
  {
  }

  lemma NewEventLater(s: State, req: Req, e: Effect, a: Event)
    requires EffectOk(s, e) && |Do(s, req, e).log| > |s.log| && Marked(s, a)
    ensures Later(a, Do(s, req, e).log[|s.log|])
  {
  }

  /** Which code rows a statement leaves: old ones no less consumed than before, and fresh ones. */
  lemma CodesAre(s: State, req: Req, e: Effect)
    requires EffectOk(s, e)
    ensures var s' := Do(s, req, e);
            && s.usedRows <= s'.usedRows
            && (forall r :: r in s'.db.codes ==>
                  || (r in s.db.codes && (s.db.codes[r].consumed ==> s'.db.codes[r].consumed))
                  || (r !in s.usedRows && r in s'.usedRows))
            && (e.SpendCode? && e.codeRow in s'.db.codes ==> s'.db.codes[e.codeRow].consumed)
  {
    hide Epoch, StepFresh;
  }

  lemma DoCodes(s: State, req: Req, e: Effect)
    requires CodesOk(s) && CodesOnce(s.log) && EffectOk(s, e)
    ensures CodesOk(Do(s, req, e)) && CodesOnce(Do(s, req, e).log)
  {
    hide *;
    CodesStay(s, req, e);
    CodesStayOnce(s, req, e);
  }

  lemma CodesStay(s: State, req: Req, e: Effect)
    requires CodesOk(s) && EffectOk(s, e)
    ensures CodesOk(Do(s, req, e))
  {
    LogIs(s, req, e);
    CodesAre(s, req, e);
    hide Do, Epoch, StepFresh, IssuedFresh;
  }

  lemma CodesStayOnce(s: State, req: Req, e: Effect)
    requires CodesOk(s) && CodesOnce(s.log) && EffectOk(s, e)
    ensures CodesOnce(Do(s, req, e).log)
  {
    hide Do, Epoch, StepFresh, IssuedFresh;
    LogIs(s, req, e);
  }

  lemma DoKeepsTables(s: State, req: Req, e: Effect)
    requires TablesOk(s) && EffectOk(s, e)
    ensures TablesOk(Do(s, req, e))
  {
    hide Do, TokensOk, RedeemedOnce, StepsOk, StepsIncrease, CodesOk, CodesOnce, InWindow, EffectOk;
    DoTokens(s, req, e);
    DoSteps(s, req, e);
    DoCodes(s, req, e);
  }

  // ---------------------------------------------------------------- requests

  predicate TokenFor(s: State, token: Token, user: Id) { token in s.issuedTo && s.issuedTo[token] == user }

  predicate UserIs(s: State, user: Id, id: Id) { user in s.db.users && s.db.users[user].identity == id }

  /** What a request already did, by where it is. */
  predicate TaskOk(s: State, req: Req, task: Task) {
    match task
    case ReadUser(token, _, user) => TokenFor(s, token, user)
    case ReadIdentity(token, _, user, m) => TokenFor(s, token, user) && UserIs(s, user, m.identity)
    case CheckCode(token, _, user, m, _) => TokenFor(s, token, user) && UserIs(s, user, m.identity)
    case Redeem(token, user, id, factor, at) =>
      TokenFor(s, token, user) && UserIs(s, user, id) && Accepted(req, id, factor, at) in s.log
    case ClearFailures(token, user, id, factor, at) =>
      Accepted(req, id, factor, at) in s.log && Redeemed(req, token, user) in s.log && UserIs(s, user, id)
    case MintMfa(token, user, id, factor, at) =>
      Accepted(req, id, factor, at) in s.log && Redeemed(req, token, user) in s.log && UserIs(s, user, id)
    case LoadForLogin(user, id) => UserIs(s, user, id)
    case Finalize(user, id, row) => UserIs(s, user, id) && Loaded(req, id, row) in s.log
    case PurgeOld(user, id, row) => UserIs(s, user, id) && PassedWithMfa(s.log, req, user, id, row)
    case IssueChallenge(user, id, row) => UserIs(s, user, id) && PassedWithMfa(s.log, req, user, id, row)
    case MintPlain(user, id, row) =>
      Loaded(req, id, row) in s.log && Passed(req, user, id, row) in s.log && !row.mfaEnabled && !row.forceChange
    case _ => true
  }

  predicate PassedWithMfa(log: seq<Event>, req: Req, user: Id, id: Id, row: Identity) {
    Passed(req, user, id, row) in log && row.mfaEnabled && !row.forceChange
  }

  predicate TasksOk(s: State) { forall req :: req in s.tasks ==> TaskOk(s, req, s.tasks[req]) }

  /** A login of this member passed its first factor on a row with MFA on and no change due. */
  predicate PassedBefore(log: seq<Event>, i: nat, req: Req, user: Id, id: Id) {
    exists j :: 0 <= j < i <= |log| && log[j].Passed? && log[j].req == req && log[j].user == user && log[j].id == id
      && log[j].row.mfaEnabled && !log[j].row.forceChange
  }

  /** The challenge was issued to this user by another request. */
  predicate IssuedBefore(log: seq<Event>, i: nat, req: Req, token: Token, user: Id) {
    exists j :: 0 <= j < i <= |log| && log[j].Issued? && log[j].token == token && log[j].user == user && log[j].req != req
  }

  /** Earlier events justify this one: a first factor the row it was checked on, a challenge the
      first factor, a redemption the challenge, a session the redemption and a second factor, or a
      first factor that needed no second. */
  predicate Explained(log: seq<Event>, i: nat)
    requires i < |log|
  {
    match log[i]
    case Passed(req, user, id, row) => Loaded(req, id, row) in log[..i]
    case Issued(req, token, user, id) => PassedBefore(log, i, req, user, id)
    case Redeemed(req, token, user) => IssuedBefore(log, i, req, token, user)
    case Minted(req, user, id, ByMfa(token, factor, at)) =>
      Redeemed(req, token, user) in log[..i] && Accepted(req, id, factor, at) in log[..i]
    case Minted(req, user, id, ByLogin(row)) =>
      && Loaded(req, id, row) in log[..i] && Passed(req, user, id, row) in log[..i]
      && !row.mfaEnabled && !row.forceChange
    case _ => true
  }

  /** A request that issued a challenge or minted a session is finished; no request mints two. */
  predicate MintsOk(s: State) {
    && (forall i :: 0 <= i < |s.log| ==> Explained(s.log, i))
    && (forall i :: 0 <= i < |s.log| && (s.log[i].Minted? || s.log[i].Issued?) ==>
          s.log[i].req in s.tasks && s.tasks[s.log[i].req].Done?)
    && (forall i, j :: 0 <= i < j < |s.log| && s.log[i].Minted? && s.log[j].Minted? ==> s.log[i].req != s.log[j].req)
  }

  /** Every token was issued, and challenges and MFA sessions name the identity of their user. */
  predicate IssuesOk(s: State) {
    && (forall t :: t in s.issuedTo ==>
          exists j :: 0 <= j < |s.log| && s.log[j].Issued? && s.log[j].token == t && s.log[j].user == s.issuedTo[t])
    && (forall i :: 0 <= i < |s.log| && (s.log[i].Issued? || (s.log[i].Minted? && s.log[i].grounds.ByMfa?)) ==>
          UserIs(s, s.log[i].user, s.log[i].id))
  }

  ghost predicate Inv(s: State) { TablesOk(s) && TasksOk(s) && MintsOk(s) && IssuesOk(s) }

  predicate Grows(s: State, s': State) {
    && s.log <= s'.log
    && (forall t :: t in s.issuedTo ==> t in s'.issuedTo && s'.issuedTo[t] == s.issuedTo[t])
    && (forall u :: u in s.db.users ==> u in s'.db.users && s'.db.users[u].identity == s.db.users[u].identity)
  }

  lemma TaskStays(s: State, s': State, req: Req, task: Task)
    requires Grows(s, s') && TaskOk(s, req, task)
    ensures TaskOk(s', req, task)
  {
    assert forall e :: e in s.log ==> e in s'.log;
  }

  /** Every effect but those naming an event leaves the log alone; those add one event. */
  lemma LogAfter(s: State, req: Req, e: Effect)
    ensures s.log <= Do(s, req, e).log
    ensures e.Load? ==> Loaded(req, e.id, e.row) in Do(s, req, e).log
    ensures e.Pass? ==> Passed(req, e.user, e.id, e.row) in Do(s, req, e).log
    ensures e.AcceptStep? ==> Accepted(req, e.id, TotpStep(e.id, Epoch(s, e.id), e.step), e.now) in Do(s, req, e).log
    ensures e.SpendCode? && e.codeRow in s.db.codes ==> Accepted(req, e.id, CodeRow(e.codeRow), e.now) in Do(s, req, e).log
    ensures e.Remove? && e.token in s.db.challenges ==>
              Redeemed(req, e.token, s.db.challenges[e.token].user) in Do(s, req, e).log
  {
    hide MarkStep, StepFresh, IncrementAttempts, PurgeChallenges, Enable, Disable, ReplaceCodes, SetPendingSecret;
  }

  lemma DoGrows(s: State, req: Req, e: Effect)
    requires EffectOk(s, e)
    ensures Grows(s, Do(s, req, e)) && Do(s, req, e).db.users == s.db.users
  {
    LogIs(s, req, e);
    UsersStay(s, req, e);
    hide Do, Epoch, IssuedFresh, StepFresh;
  }

  lemma UsersStay(s: State, req: Req, e: Effect)
    ensures Do(s, req, e).db.users == s.db.users
  {
    hide StepFresh, Epoch;
  }

  predicate MfaTask(task: Task) {
    task.ReadChallenge? || task.DropChallenge? || task.ReadUser? || task.ReadIdentity? || task.CheckCode? || task.CountAttempt?
    || task.CountFailure? || task.Redeem? || task.ClearFailures? || task.MintMfa?
  }

  predicate LoginTask(task: Task) {
    task.LoadUser? || task.LoadForLogin? || task.Finalize? || task.PurgeOld? || task.IssueChallenge? || task.MintPlain?
  }

  lemma CheckNextOk(c: Crypto, s: State, s': State, req: Req, task: Task, i: Input)
    requires TaskOk(s, req, task) && task.CheckCode? && Grows(s, s') && s' == Do(s, req, Program(c, s, task, i).0)
    ensures TaskOk(s', req, Program(c, s, task, i).1)
  {
    hide VerifyPlan, StepFresh, Do, CheckGates, Epoch;
    LogAfter(s, req, Program(c, s, task, i).0);
  }

  lemma RedeemNextOk(c: Crypto, s: State, s': State, req: Req, task: Task, i: Input)
    requires TokensOk(s) && TaskOk(s, req, task) && task.Redeem? && Grows(s, s') && s' == Do(s, req, Program(c, s, task, i).0)
    ensures TaskOk(s', req, Program(c, s, task, i).1)
  {
    hide VerifyEffect, Do, CheckGates;
    LogAfter(s, req, Program(c, s, task, i).0);
    assert forall e :: e in s.log ==> e in s'.log;
    if task.token in s.db.challenges {
      assert s.db.challenges[task.token].user == task.user;
    }
  }

  lemma MfaNextOk(c: Crypto, s: State, s': State, req: Req, task: Task, i: Input)
    requires TokensOk(s) && TaskOk(s, req, task) && MfaTask(task) && Grows(s, s') && s' == Do(s, req, Program(c, s, task, i).0)
    requires !task.CheckCode? && !task.Redeem?
    ensures TaskOk(s', req, Program(c, s, task, i).1)
  {
    hide VerifyEffect, Do, CheckGates, Epoch;
    assert forall e :: e in s.log ==> e in s'.log;
  }

  lemma LoginNextOk(c: Crypto, s: State, s': State, req: Req, task: Task, i: Input)
    requires TaskOk(s, req, task) && LoginTask(task) && Grows(s, s') && s' == Do(s, req, Program(c, s, task, i).0)
    ensures TaskOk(s', req, Program(c, s, task, i).1)
  {
    hide VerifyPlan, StepFresh, Do, CheckGates, Epoch;
    LogAfter(s, req, Program(c, s, task, i).0);
    assert forall e :: e in s.log ==> e in s'.log;
  }

  /** The other requests claim nothing about what they did. */
  lemma OtherNextOk(c: Crypto, s: State, s': State, req: Req, task: Task, i: Input)
    requires !MfaTask(task) && !LoginTask(task)
    ensures TaskOk(s', req, Program(c, s, task, i).1)
  {
    hide VerifyPlan, StepFresh, CheckGates, Epoch, ConfirmStep, IssuedFresh;
  }

  /** The point a request moves to is justified by the statement it just ran. */
  lemma NextTaskOk(c: Crypto, s: State, req: Req, task: Task, i: Input)
    requires TokensOk(s) && TaskOk(s, req, task)
    ensures TaskOk(Do(s, req, Program(c, s, task, i).0), req, Program(c, s, task, i).1)
  {
    hide *;
    var eff := Program(c, s, task, i).0;
    ProgramEffectOk(c, s, task, i);
    DoGrows(s, req, eff);
    if task.CheckCode? {
      CheckNextOk(c, s, Do(s, req, eff), req, task, i);
    } else if task.Redeem? {
      RedeemNextOk(c, s, Do(s, req, eff), req, task, i);
    } else if MfaTask(task) {
      MfaNextOk(c, s, Do(s, req, eff), req, task, i);
    } else if LoginTask(task) {
      LoginNextOk(c, s, Do(s, req, eff), req, task, i);
    } else {
      OtherNextOk(c, s, Do(s, req, eff), req, task, i);
    }
  }

  // ---------------------------------------------------------------- new events

  /** What must have happened before a request runs a statement that logs an event. */
  predicate Grounded(s: State, req: Req, e: Effect) {
    match e
    case Pass(user, id, row) => Loaded(req, id, row) in s.log
    case Issue(token, user, id, _) => UserIs(s, user, id) && PassedBefore(s.log, |s.log|, req, user, id)
    case Mint(user, id, ByMfa(token, factor, at)) =>
      UserIs(s, user, id) && Redeemed(req, token, user) in s.log && Accepted(req, id, factor, at) in s.log
    case Mint(user, id, ByLogin(row)) =>
      && Loaded(req, id, row) in s.log && Passed(req, user, id, row) in s.log && !row.mfaEnabled && !row.forceChange
    case _ => true
  }

  lemma PassedIsBefore(log: seq<Event>, req: Req, user: Id, id: Id, row: Identity)
    requires PassedWithMfa(log, req, user, id, row)
    ensures PassedBefore(log, |log|, req, user, id)
  {
    var j :| 0 <= j < |log| && log[j] == Passed(req, user, id, row);
  }

  lemma ProgramGrounded(c: Crypto, s: State, req: Req, task: Task, i: Input)
    requires TaskOk(s, req, task)
    ensures Grounded(s, req, Program(c, s, task, i).0)
  {
    hide VerifyPlan, CheckGates, StepFresh, IssuedFresh, PassedWithMfa, PassedBefore, ConfirmStep, Epoch;
    if task.IssueChallenge? {
      PassedIsBefore(s.log, req, task.user, task.id, task.row);
    }
  }

  /** Requests end when they issue or mint, and do nothing once they have ended. */
  lemma ProgramEnds(c: Crypto, s: State, task: Task, i: Input)
    ensures var (eff, task') := Program(c, s, task, i);
            && (eff.Mint? || eff.Issue? ==> task'.Done?)
            && (eff.Mint? || eff.Issue? || eff.Remove? ==> !task.Done?)
            && (task.Done? ==> task'.Done?)
  {
    hide VerifyPlan, CheckGates, StepFresh, IssuedFresh, ConfirmStep, Epoch;
  }

  lemma ExplainedStays(log: seq<Event>, log': seq<Event>, i: nat)
    requires log <= log' && i < |log| && Explained(log, i)
    ensures Explained(log', i)
  {
    assert log'[..i] == log[..i];
  }

  /** The issue behind a challenge about to be removed: by a request already finished. */
  lemma RemovalExplained(s: State, req: Req, token: Token)
    requires TokensOk(s) && MintsOk(s) && IssuesOk(s) && token in s.db.challenges
    requires req in s.tasks && !s.tasks[req].Done?
    ensures IssuedBefore(s.log, |s.log|, req, token, s.db.challenges[token].user)
  {
    hide Explained;
    var j :| 0 <= j < |s.log| && s.log[j].Issued? && s.log[j].token == token && s.log[j].user == s.issuedTo[token];
    assert s.log[j].req != req;
  }

  /** The one event a statement logs. */
  function NewEvent(s: State, req: Req, e: Effect): Option<Event> {
    match e
    case Load(id, row) => Some(Loaded(req, id, row))
    case Pass(user, id, row) => Some(Passed(req, user, id, row))
    case Miss(token) => Some(Wrong(req, token))
    case AcceptStep(id, k, now) => Some(Accepted(req, id, TotpStep(id, Epoch(s, id), k), now))
    case SpendCode(id, row, now) => if row in s.db.codes then Some(Accepted(req, id, CodeRow(row), now)) else None
    case ConfirmMark(id, k) => if id in s.db.identities then Some(Confirmed(req, id, Epoch(s, id), k, StepFresh(s.db, id, k))) else None
    case Remove(token) =>
      if token in s.db.challenges then Some(Redeemed(req, token, s.db.challenges[token].user)) else None
    case Mint(user, id, grounds) => Some(Minted(req, user, id, grounds))
    case Issue(token, user, id, _) => Some(Issued(req, token, user, id))
    case _ => None
  }

  lemma LogIs(s: State, req: Req, e: Effect)
    ensures Do(s, req, e).log == s.log + (if NewEvent(s, req, e).Some? then [NewEvent(s, req, e).value] else [])
    ensures Do(s, req, e).issuedTo == if e.Issue? then s.issuedTo[e.token := e.user] else s.issuedTo
  {
    hide MarkStep, StepFresh, IncrementAttempts, PurgeChallenges, Enable, Disable, ReplaceCodes, SetPendingSecret, Epoch;
  }

  lemma NewExplained(s: State, req: Req, e: Effect)
    requires TokensOk(s) && MintsOk(s) && IssuesOk(s) && Grounded(s, req, e)
    requires NewEvent(s, req, e).Some? && (e.Remove? ==> req in s.tasks && !s.tasks[req].Done?)
    ensures Explained(s.log + [NewEvent(s, req, e).value], |s.log|)
  {
    hide TokensOk, MintsOk, IssuesOk, Epoch;
    var log' := s.log + [NewEvent(s, req, e).value];
    assert log'[..|s.log|] == s.log;
    if e.Remove? {
      RemovalExplained(s, req, e.token);
    }
  }

  /** The log after a statement keeps its invariants, once the request has moved on. */
  lemma MintsKept(s: State, req: Req, e: Effect, task': Task)
    requires TokensOk(s) && MintsOk(s) && IssuesOk(s) && Grounded(s, req, e) && req in s.tasks
    requires (e.Mint? || e.Issue? ==> task'.Done?) && (s.tasks[req].Done? ==> task'.Done?)
    requires e.Mint? || e.Issue? || e.Remove? ==> !s.tasks[req].Done?
    ensures MintsOk(Do(s, req, e).(tasks := s.tasks[req := task']))
  {
    hide Do, Grounded, Explained, TokensOk, IssuesOk;
    LogIs(s, req, e);
    var s' := Do(s, req, e).(tasks := s.tasks[req := task']);
    forall k | 0 <= k < |s.log| ensures Explained(s'.log, k) {
      ExplainedStays(s.log, s'.log, k);
    }
    if NewEvent(s, req, e).Some? {
      NewExplained(s, req, e);
    }
  }

  lemma IssuesKept(s: State, req: Req, e: Effect, task': Task)
    requires IssuesOk(s) && Grounded(s, req, e) && EffectOk(s, e)
    ensures IssuesOk(Do(s, req, e).(tasks := s.tasks[req := task']))
  {
    hide Do, PassedBefore, EffectOk, Epoch;
    LogIs(s, req, e);
    DoGrows(s, req, e);
    var s' := Do(s, req, e).(tasks := s.tasks[req := task']);
    forall t | t in s'.issuedTo
      ensures exists j :: 0 <= j < |s'.log| && s'.log[j].Issued? && s'.log[j].token == t && s'.log[j].user == s'.issuedTo[t]
    {
      if e.Issue? && t == e.token {
        assert s'.log[|s.log|] == Issued(req, t, e.user, e.id);
      } else {
        var j :| 0 <= j < |s.log| && s.log[j].Issued? && s.log[j].token == t && s.log[j].user == s.issuedTo[t];
        assert s'.log[j] == s.log[j];
      }
    }
  }

  lemma {:induction false} RunKeeps(c: Crypto, s: State, req: Req, i: Input)
    requires Inv(s) && req in s.tasks
    ensures Inv(Next(c, s, Run(req, i)))
  {
    hide TokensOk, RedeemedOnce, StepsOk, StepsIncrease, CodesOk, CodesOnce, InWindow, EffectOk, Program, Do,
         TaskOk, MintsOk, IssuesOk, Grounded;
    var task := s.tasks[req];
    var (eff, task') := Program(c, s, task, i);
    var mid := Do(s, req, eff);
    var s' := Next(c, s, Run(req, i));
    ProgramEffectOk(c, s, task, i);
    ProgramGrounded(c, s, req, task, i);
    ProgramEnds(c, s, task, i);
    DoKeepsTables(s, req, eff);
    DoGrows(s, req, eff);
    LogGrowsByOne(s, req, eff);
    TablesIgnoreTasks(mid, s');
    forall q | q in s'.tasks ensures TaskOk(s', q, s'.tasks[q]) {
      if q == req {
        NextTaskOk(c, s, req, task, i);
        TaskStays(mid, s', req, task');
      } else {
        TaskStays(s, s', q, s.tasks[q]);
      }
    }
    MintsKept(s, req, eff, task');
    IssuesKept(s, req, eff, task');
  }

  lemma TablesIgnoreTasks(s: State, s': State)
    requires TablesOk(s) && s' == s.(tasks := s'.tasks)
    ensures TablesOk(s')
  {
    hide RedeemedOnce, StepsIncrease, CodesOnce, InWindow;
    forall i | 0 <= i < |s.log| ensures Marked(s', s.log[i]) {
      assert Marked(s, s.log[i]);
    }
  }

  /** Statements of other requests that leave the MFA columns, the codes and the challenges alone. */
  lemma OutsideKeeps(c: Crypto, s: State, a: Action)
    requires Inv(s) && !a.Run? && !a.Spawn?
    ensures Inv(Next(c, s, a))
  {
    hide TablesOk, Explained, TaskOk, Next;
    OutsideGrows(c, s, a);
    OutsideTables(c, s, a);
    var s' := Next(c, s, a);
    forall q | q in s'.tasks ensures TaskOk(s', q, s'.tasks[q]) {
      TaskStays(s, s', q, s.tasks[q]);
    }
  }

  lemma OutsideGrows(c: Crypto, s: State, a: Action)
    requires !a.Run? && !a.Spawn?
    ensures Grows(s, Next(c, s, a))
    ensures var s' := Next(c, s, a); s'.log == s.log && s'.tasks == s.tasks && s'.issuedTo == s.issuedTo
  {
  }

  lemma OutsideTables(c: Crypto, s: State, a: Action)
    requires TablesOk(s) && !a.Run? && !a.Spawn?
    ensures TablesOk(Next(c, s, a))
  {
    hide RedeemedOnce, StepsIncrease, CodesOnce, InWindow;
    var s' := Next(c, s, a);
    forall i | 0 <= i < |s.log| ensures Marked(s', s.log[i]) {
      assert Marked(s, s.log[i]);
    }
  }

  lemma SpawnKeeps(c: Crypto, s: State, req: Req, task: Task)
    requires Inv(s)
    ensures Inv(Next(c, s, Spawn(req, task)))
  {
    hide TokensOk, RedeemedOnce, StepsOk, StepsIncrease, CodesOk, CodesOnce, InWindow, Explained;
    var s' := Next(c, s, Spawn(req, task));
    TablesIgnoreTasks(s, s');
    forall q | q in s'.tasks ensures TaskOk(s', q, s'.tasks[q]) {
      if q in s.tasks {
        TaskStays(s, s', q, s.tasks[q]);
      }
    }
  }

  /** The invariant holds after every sequence of actions. */
  lemma {:induction false} InvAlways(c: Crypto, actions: seq<Action>)
    ensures Inv(RunAll(c, actions))
  {
    hide Inv, Next;
    if actions == [] {
      assert Inv(START) by { StartOk(); }
    } else {
      var k := |actions| - 1;
      InvAlways(c, actions[..k]);
      var s := RunAll(c, actions[..k]);
      match actions[k]
      case Run(req, i) =>
        if req in s.tasks {
          RunKeeps(c, s, req, i);
        } else {
          assert Next(c, s, actions[k]) == s by { IdleRun(c, s, req, i); }
        }
      case Spawn(req, task) => SpawnKeeps(c, s, req, task);
      case _ => OutsideKeeps(c, s, actions[k]);
    }
  }

  lemma StartOk()
    ensures Inv(START)
  {
  }

  lemma IdleRun(c: Crypto, s: State, req: Req, i: Input)
    requires req !in s.tasks
    ensures Next(c, s, Run(req, i)) == s
  {
  }

  // ---------------------------------------------------------------- main results

  /** In every interleaving each event has its grounds earlier in the log: an MFA session a challenge
      it redeemed and a second factor of the same identity it spent, any other session a first
      factor on a row loaded with MFA off and no forced change. */
  lemma SessionsAreExplained(c: Crypto, actions: seq<Action>)
    ensures forall i :: 0 <= i < |RunAll(c, actions).log| ==> Explained(RunAll(c, actions).log, i)
  {
    InvAlways(c, actions);
  }

  /** First factor, challenge, redemption, session: in this order, the first two by another request
      than the last two, all for one user and one identity, with MFA on and no change due. */
  predicate TwoFactorChain(log: seq<Event>, p: nat, q: nat, r: nat, i: nat) {
    && p < q < r < i < |log|
    && log[p].Passed? && log[q].Issued? && log[r].Redeemed? && log[i].Minted? && log[i].grounds.ByMfa?
    && log[p].req == log[q].req != log[r].req == log[i].req
    && log[p].user == log[q].user == log[r].user == log[i].user
    && log[p].id == log[q].id == log[i].id
    && log[q].token == log[r].token == log[i].grounds.token
    && log[p].row.mfaEnabled && !log[p].row.forceChange
  }

  /** Two factors in every interleaving: before each MFA session its challenge was issued to the same
      user by another request, after that request passed the first factor on the same identity. */
  lemma {:induction false} TwoFactors(c: Crypto, actions: seq<Action>, i: nat) returns (p: nat, q: nat, r: nat)
    requires i < |RunAll(c, actions).log|
    requires RunAll(c, actions).log[i].Minted? && RunAll(c, actions).log[i].grounds.ByMfa?
    ensures TwoFactorChain(RunAll(c, actions).log, p, q, r, i)
  {
    hide *;
    InvAlways(c, actions);
    p, q, r := ChainBack(RunAll(c, actions), i);
  }

  lemma ChainBack(s: State, i: nat) returns (p: nat, q: nat, r: nat)
    requires Inv(s) && i < |s.log| && s.log[i].Minted? && s.log[i].grounds.ByMfa?
    ensures TwoFactorChain(s.log, p, q, r, i)
  {
    hide TablesOk, TasksOk;
    var log := s.log;
    var token := log[i].grounds.token;
    assert Explained(log, i);
    r :| 0 <= r < i && log[..i][r] == Redeemed(log[i].req, token, log[i].user);
    assert Explained(log, r);
    q :| 0 <= q < r && log[q].Issued? && log[q].token == token && log[q].user == log[i].user && log[q].req != log[i].req;
    assert Explained(log, q);
    p :| 0 <= p < q && log[p].Passed? && log[p].req == log[q].req && log[p].user == log[q].user && log[p].id == log[q].id
         && log[p].row.mfaEnabled && !log[p].row.forceChange;
    assert UserIs(s, log[q].user, log[q].id) && UserIs(s, log[i].user, log[i].id);
  }

  /** The correspondence is one to one: two MFA sessions never share a request, a challenge or a
      second factor. */
  lemma SessionsAreDistinct(c: Crypto, actions: seq<Action>, i: nat, j: nat)
    requires var log := RunAll(c, actions).log;
             i < j < |log| && log[i].Minted? && log[j].Minted? && log[i].grounds.ByMfa? && log[j].grounds.ByMfa?
    ensures var log := RunAll(c, actions).log;
            && log[i].req != log[j].req
            && log[i].grounds.token != log[j].grounds.token
            && log[i].grounds.factor != log[j].grounds.factor
  {
    hide RunAll;
    InvAlways(c, actions);
    var s := RunAll(c, actions);
    var a, b := s.log[i], s.log[j];
    assert Explained(s.log, i) && Explained(s.log, j);
    assert Redeemed(a.req, a.grounds.token, a.user) in s.log && Redeemed(b.req, b.grounds.token, b.user) in s.log;
    assert Accepted(a.req, a.id, a.grounds.factor, a.grounds.at) in s.log
        && Accepted(b.req, b.id, b.grounds.factor, b.grounds.at) in s.log;
  }

  // ---------------------------------------------------------------- accepted time steps

  /** The steps `verify` accepted for an identity within one epoch, at clock readings in a range. */
  function AcceptedSteps(log: seq<Event>, id: Id, epoch: nat, t1: nat, t2: nat): seq<nat> {
    if log == [] then []
    else
      var e := log[|log| - 1];
      AcceptedSteps(log[..|log| - 1], id, epoch, t1, t2)
      + if Counted(e, id, epoch, t1, t2) then [e.factor.step] else []
  }

  predicate Increasing(s: seq<int>) { forall i, j :: 0 <= i < j < |s| ==> s[i] < s[j] }

  predicate Counted(e: Event, id: Id, epoch: nat, t1: nat, t2: nat) {
    e.Accepted? && e.factor.TotpStep? && e.factor.id == id && e.factor.epoch == epoch && t1 <= e.now <= t2
  }

  lemma {:induction false} AcceptedStepsFacts(log: seq<Event>, id: Id, epoch: nat, t1: nat, t2: nat, bound: int)
    requires StepsIncrease(log) && InWindow(log)
    requires forall i :: 0 <= i < |log| && Counted(log[i], id, epoch, t1, t2) ==> log[i].factor.step < bound
    ensures var steps := AcceptedSteps(log, id, epoch, t1, t2);
            && Increasing(steps)
            && (forall k :: 0 <= k < |steps| ==> t1 / 30 - 1 <= steps[k] <= t2 / 30 + 1 && steps[k] < bound)
    decreases |log|
  {
    hide InWindow, StepsIncrease;
    if log != [] {
      var n := |log| - 1;
      var e := log[n];
      assert StepsIncrease(log[..n]) && InWindow(log[..n]) by { PrefixFacts(log); }
      if Counted(e, id, epoch, t1, t2) {
        assert forall i :: 0 <= i < n ==> Later(log[i], e) by { LastIsLater(log); }
        AcceptedStepsFacts(log[..n], id, epoch, t1, t2, e.factor.step);
        LastInWindow(log);
      } else {
        AcceptedStepsFacts(log[..n], id, epoch, t1, t2, bound);
      }
    }
  }

  lemma PrefixFacts(log: seq<Event>)
    requires log != [] && StepsIncrease(log) && InWindow(log)
    ensures StepsIncrease(log[..|log| - 1]) && InWindow(log[..|log| - 1])
  {
  }

  lemma LastIsLater(log: seq<Event>)
    requires log != [] && StepsIncrease(log)
    ensures forall i :: 0 <= i < |log| - 1 ==> Later(log[i], log[|log| - 1])
  {
  }

  lemma LastInWindow(log: seq<Event>)
    requires log != [] && InWindow(log) && log[|log| - 1].Accepted? && log[|log| - 1].factor.TotpStep?
    ensures var e := log[|log| - 1]; e.now / 30 - 1 <= e.factor.step <= e.now / 30 + 1
  {
  }

  lemma {:induction false} IncreasingFits(s: seq<int>, lo: int, hi: int)
    requires Increasing(s) && lo <= hi + 1 && forall k :: 0 <= k < |s| ==> lo <= s[k] <= hi
    ensures |s| <= hi - lo + 1
    decreases |s|
  {
    if s != [] {
      IncreasingFits(s[..|s| - 1], lo, s[|s| - 1] - 1);
    }
  }

  /** Between two resets of the replay marker at most floor(t2/30) - floor(t1/30) + 3 codes are
      accepted at clock readings in [t1, t2], in strictly increasing steps, in any interleaving. */
  lemma TotpRate(c: Crypto, actions: seq<Action>, id: Id, epoch: nat, t1: nat, t2: nat)
    requires t1 <= t2
    ensures var steps := AcceptedSteps(RunAll(c, actions).log, id, epoch, t1, t2);
            Increasing(steps) && |steps| <= t2 / 30 - t1 / 30 + 3
  {
    hide RunAll;
    InvAlways(c, actions);
    var log := RunAll(c, actions).log;
    AcceptedStepsFacts(log, id, epoch, t1, t2, t2 / 30 + 2);
    IncreasingFits(AcceptedSteps(log, id, epoch, t1, t2), t1 / 30 - 1, t2 / 30 + 1);
  }

  /** Section 5.2 of RFC 6238: once a step was used, to confirm the enrollment or to verify, neither
      it nor an earlier one is accepted again before the marker is reset. */
  lemma {:induction false} UsedStepsStayUsed(c: Crypto, actions: seq<Action>, i: nat, j: nat)
    requires i < j < |RunAll(c, actions).log|
    ensures Later(RunAll(c, actions).log[i], RunAll(c, actions).log[j])
  {
    InvAlways(c, actions);
  }
}
