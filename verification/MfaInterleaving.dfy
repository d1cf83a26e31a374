/** Requests interleaved at SQL statements: every session is paid for. A request is a program
    counter with its local variables; one action runs one statement of one request, in any order,
    with any clock readings, random tokens and choices. */
module MfaInterleaving {
  import opened Prelude
  import opened Mfa

  type Req = int

  /** A second factor, as it can be spent: a time step between two resets of the replay marker,
      or a row of backup codes. */
  datatype Factor = TotpStep(id: Id, epoch: nat, step: nat) | CodeRow(row: Id)

  /** What a session was minted on. */
  datatype Grounds = ByMfa(token: Token, factor: Factor, at: nat) | ByLogin(row: Identity)

  /** What happened, in order. */
  datatype Event =
    | Loaded(req: Req, id: Id, row: Identity)
    | Passed(req: Req, user: Id, id: Id, row: Identity)
    | Issued(req: Req, token: Token, user: Id, id: Id)
    | Wrong(req: Req, token: Token)
    | Accepted(req: Req, id: Id, factor: Factor, now: nat)
    /** A code confirmed enrollment; `fresh'` is the answer of `mark_step_used`, which is ignored. */
    | Confirmed(req: Req, id: Id, epoch: nat, step: nat, fresh': bool)
    | Redeemed(req: Req, token: Token, user: Id)
    | Minted(req: Req, user: Id, id: Id, grounds: Grounds)

  datatype Task =
    // complete_mfa_login
    | ReadChallenge(token: Token, code: string)
    | DropChallenge(token: Token)
    | ReadUser(token: Token, code: string, user: Id)
    | ReadIdentity(token: Token, code: string, user: Id, m: Member)
    | CheckCode(token: Token, code: string, user: Id, m: Member, row: Identity)
    | CountAttempt(token: Token, id: Id, row: Identity)
    | CountFailure(id: Id, row: Identity)
    | Redeem(token: Token, user: Id, id: Id, factor: Factor, at: nat)
    | ClearFailures(token: Token, user: Id, id: Id, factor: Factor, at: nat)
    | MintMfa(token: Token, user: Id, id: Id, factor: Factor, at: nat)
    // every login that ends in finalize_login
    | LoadUser(user: Id)
    | LoadForLogin(user: Id, id: Id)
    | Finalize(user: Id, id: Id, row: Identity)
    | PurgeOld(user: Id, id: Id, row: Identity)
    | IssueChallenge(user: Id, id: Id, row: Identity)
    | MintPlain(user: Id, id: Id, row: Identity)
    // enrollment, and management that needs a valid code
    | LoadForEnroll(id: Id)
    | StorePending(id: Id)
    | LoadForConfirm(id: Id, code: string)
    | MarkConfirm(id: Id, row: Identity, code: string)
    | TurnOn(id: Id)
    | LoadForManage(id: Id, code: string, off: bool)
    | CheckManage(id: Id, row: Identity, code: string, off: bool)
    | Manage(id: Id, off: bool)
    | Done

  predicate Initial(t: Task) {
    t.ReadChallenge? || t.LoadUser? || t.LoadForEnroll? || t.LoadForConfirm? || t.LoadForManage?
  }

  /** Everything a statement takes from outside: the clock, whether a login passes its first factor
      and gates, and fresh random values. */
  datatype Input = Input(now: nat, pass: bool, token: Token, secret: string, row: Id, issued: map<Id, string>)

  datatype State = State(db: Db, epochs: map<Id, nat>, issuedTo: map<Token, Id>, usedRows: set<Id>,
                         tasks: map<Req, Task>, log: seq<Event>)

  function Epoch(s: State, id: Id): nat { if id in s.epochs then s.epochs[id] else 0 }

  /** What one statement does to the tables and the log. */
  datatype Effect =
    | Quiet
    | Load(id: Id, row: Identity)
    | Pass(user: Id, id: Id, row: Identity)
    | Miss(token: Token)
    | AcceptStep(id: Id, step: nat, now: nat)
    | SpendCode(id: Id, codeRow: Id, now: nat)
    | ConfirmMark(id: Id, step: nat)
    | Attempt(token: Token)
    | Failures(id: Id, failed: nat, lockedUntil: Option<int>)
    | Remove(token: Token)
    | Mint(user: Id, id: Id, grounds: Grounds)
    | Purge(now: nat)
    | Issue(token: Token, user: Id, id: Id, expires: int)
    | Pending(id: Id, secret: string)
    | On(id: Id, issued: map<Id, string>)
    | Off(id: Id)
    | NewCodes(id: Id, issued: map<Id, string>)

  // ---------------------------------------------------------------- the programs

  /** Where a `verify` leads: the statement it runs and whether it accepted. */
  function VerifyEffect(c: Crypto, s: State, id: Id, row: Identity, code: string, i: Input): (Effect, Option<Factor>) {
    match VerifyPlan(c, row, code, i.now)
    case Reject => (Quiet, None)
    case UseStep(k) =>
      if StepFresh(s.db, id, k) then (AcceptStep(id, k, i.now), Some(TotpStep(id, Epoch(s, id), k))) else (Quiet, None)
    case UseCode(h) =>
      if Consumable(s.db, id, h, i.row) then (SpendCode(id, i.row, i.now), Some(CodeRow(i.row))) else (Quiet, None)
  }

  predicate IssuedFresh(s: State, issued: map<Id, string>) { issued.Keys !! s.usedRows }

  /** The statement run next from a point of a request, and the point it leads to. */
  function Program(c: Crypto, s: State, task: Task, i: Input): (Effect, Task) {
    match task
    case ReadChallenge(token, code) =>
      if token !in s.db.challenges || s.db.challenges[token].expires <= i.now then (Quiet, Done)
      else if s.db.challenges[token].attempts >= MAX_MFA_ATTEMPTS then (Quiet, DropChallenge(token))
      else (Quiet, ReadUser(token, code, s.db.challenges[token].user))
    case DropChallenge(token) => (Remove(token), Done)
    case ReadUser(token, code, user) =>
      if user !in s.db.users then (Quiet, Done) else (Quiet, ReadIdentity(token, code, user, s.db.users[user]))
    case ReadIdentity(token, code, user, m) =>
      if m.identity !in s.db.identities then (Quiet, Done)
      else (Load(m.identity, s.db.identities[m.identity]), CheckCode(token, code, user, m, s.db.identities[m.identity]))
    case CheckCode(token, code, user, m, row) =>
      if CheckGates(m, row, i.now).Some? then (Quiet, Done)
      else
        var (eff, factor) := VerifyEffect(c, s, m.identity, row, code, i);
        if factor.Some? then (eff, Redeem(token, user, m.identity, factor.value, i.now))
        else (Miss(token), CountAttempt(token, m.identity, row))
    case CountAttempt(token, id, row) => (Attempt(token), CountFailure(id, row))
    case CountFailure(id, row) =>
      if id !in s.db.identities then (Quiet, Done)
      else
        var lock := if row.failed + 1 >= LOCK_AFTER then Some(i.now + LOCK_SECS) else s.db.identities[id].lockedUntil;
        (Failures(id, s.db.identities[id].failed + 1, lock), Done)
    case Redeem(token, user, id, factor, at) =>
      (Remove(token), if token in s.db.challenges then ClearFailures(token, user, id, factor, at) else Done)
    case ClearFailures(token, user, id, factor, at) => (Failures(id, 0, None), MintMfa(token, user, id, factor, at))
    case MintMfa(token, user, id, factor, at) => (Mint(user, id, ByMfa(token, factor, at)), Done)
    case LoadUser(user) =>
      if user !in s.db.users then (Quiet, Done) else (Quiet, LoadForLogin(user, s.db.users[user].identity))
    case LoadForLogin(user, id) =>
      if id !in s.db.identities then (Quiet, Done)
      else (Load(id, s.db.identities[id]), Finalize(user, id, s.db.identities[id]))
    case Finalize(user, id, row) =>
      if !i.pass then (Quiet, Done)
      else (Pass(user, id, row), if row.forceChange then Done else if row.mfaEnabled then PurgeOld(user, id, row) else MintPlain(user, id, row))
    case PurgeOld(user, id, row) => (Purge(i.now), IssueChallenge(user, id, row))
    case IssueChallenge(user, id, row) =>
      if i.token in s.issuedTo then (Quiet, Done) else (Issue(i.token, user, id, i.now + CHALLENGE_TTL), Done)
    case MintPlain(user, id, row) => (Mint(user, id, ByLogin(row)), Done)
    case LoadForEnroll(id) =>
      if id !in s.db.identities || s.db.identities[id].mfaEnabled then (Quiet, Done) else (Quiet, StorePending(id))
    case StorePending(id) => (Pending(id, i.secret), Done)
    case LoadForConfirm(id, code) =>
      if id !in s.db.identities then (Quiet, Done) else (Quiet, MarkConfirm(id, s.db.identities[id], code))
    case MarkConfirm(id, row, code) =>
      (match ConfirmStep(c, row, code, i.now)
       case None => (Quiet, Done)
       case Some(k) => (ConfirmMark(id, k), TurnOn(id)))
    case TurnOn(id) => if IssuedFresh(s, i.issued) then (On(id, i.issued), Done) else (Quiet, Done)
    case LoadForManage(id, code, off) =>
      if id !in s.db.identities then (Quiet, Done)
      else (Load(id, s.db.identities[id]), CheckManage(id, s.db.identities[id], code, off))
    case CheckManage(id, row, code, off) =>
      var (eff, factor) := VerifyEffect(c, s, id, row, code, i);
      (eff, if factor.Some? then Manage(id, off) else Done)
    case Manage(id, off) =>
      if off then (Off(id), Done)
      else if IssuedFresh(s, i.issued) then (NewCodes(id, i.issued), Done) else (Quiet, Done)
    case Done => (Quiet, Done)
  }

  /** The tables and the log after a statement of request `req`. */
  function Do(s: State, req: Req, e: Effect): State {
    match e
    case Quiet => s
    case Load(id, row) => s.(log := s.log + [Loaded(req, id, row)])
    case Pass(user, id, row) => s.(log := s.log + [Passed(req, user, id, row)])
    case Miss(token) => s.(log := s.log + [Wrong(req, token)])
    case AcceptStep(id, k, now) =>
      s.(db := MarkStep(s.db, id, k), log := s.log + [Accepted(req, id, TotpStep(id, Epoch(s, id), k), now)])
    case SpendCode(id, row, now) =>
      if row !in s.db.codes then s
      else s.(db := ConsumeRow(s.db, row), log := s.log + [Accepted(req, id, CodeRow(row), now)])
    case ConfirmMark(id, k) =>
      if id !in s.db.identities then s
      else s.(db := MarkStep(s.db, id, k), log := s.log + [Confirmed(req, id, Epoch(s, id), k, StepFresh(s.db, id, k))])
    case Attempt(token) => s.(db := IncrementAttempts(s.db, token))
    case Failures(id, failed, lock) =>
      if id !in s.db.identities then s
      else s.(db := SetIdentity(s.db, id, s.db.identities[id].(failed := failed, lockedUntil := lock)))
    case Remove(token) =>
      if token !in s.db.challenges then s
      else s.(db := DeleteChallenge(s.db, token), log := s.log + [Redeemed(req, token, s.db.challenges[token].user)])
    case Mint(user, id, grounds) => s.(log := s.log + [Minted(req, user, id, grounds)])
    case Purge(now) => s.(db := PurgeChallenges(s.db, now))
    case Issue(token, user, id, expires) =>
      s.(db := InsertChallenge(s.db, token, user, expires), issuedTo := s.issuedTo[token := user],
         log := s.log + [Issued(req, token, user, id)])
    case Pending(id, secret) =>
      s.(db := SetPendingSecret(s.db, id, secret), epochs := s.epochs[id := Epoch(s, id) + 1])
    case On(id, issued) => s.(db := Enable(s.db, id, issued), usedRows := s.usedRows + issued.Keys)
    case Off(id) => s.(db := Disable(s.db, id), epochs := s.epochs[id := Epoch(s, id) + 1])
    case NewCodes(id, issued) => s.(db := ReplaceCodes(s.db, id, issued), usedRows := s.usedRows + issued.Keys)
  }

  datatype Action =
    | Spawn(req: Req, task: Task)
    | Run(req: Req, input: Input)
    /** Any other request writing columns of `identities` that are not MFA's: password changes,
        failed logins, admin actions. */
    | Elsewhere(id: Id, row: Identity)
    | NewIdentity(id: Id, row: Identity)
    /** Creating a membership or changing it; no statement gives a user another identity. */
    | ChangeUser(user: Id, member: Member)

  function Next(c: Crypto, s: State, a: Action): State {
    match a
    case Spawn(req, task) => if req in s.tasks || !Initial(task) then s else s.(tasks := s.tasks[req := task])
    case Run(req, i) =>
      if req !in s.tasks then s
      else
        var (eff, task) := Program(c, s, s.tasks[req], i);
        Do(s, req, eff).(tasks := s.tasks[req := task])
    case Elsewhere(id, row) =>
      if id !in s.db.identities then s
      else
        var old' := s.db.identities[id];
        s.(db := SetIdentity(s.db, id, row.(mfaEnabled := old'.mfaEnabled, secret := old'.secret, lastStep := old'.lastStep)))
    case NewIdentity(id, row) =>
      if id in s.db.identities then s
      else s.(db := SetIdentity(s.db, id, row.(mfaEnabled := false, secret := None, lastStep := None)))
    case ChangeUser(user, member) =>
      if user in s.db.users && s.db.users[user].identity != member.identity then s
      else s.(db := s.db.(users := s.db.users[user := member]))
  }

  const START := State(Db(map[], map[], map[], map[]), map[], map[], {}, map[], [])

  function RunFrom(c: Crypto, s: State, actions: seq<Action>): State {
    if actions == [] then s else Next(c, RunFrom(c, s, actions[..|actions| - 1]), actions[|actions| - 1])
  }

  function RunAll(c: Crypto, actions: seq<Action>): State { RunFrom(c, START, actions) }

  /** The statement of a `verify` does to the tables what the service method does. */
  lemma EffectIsVerify(c: Crypto, s: State, req: Req, id: Id, row: Identity, code: string, i: Input)
    ensures var (eff, factor) := VerifyEffect(c, s, id, row, code, i);
            (Do(s, req, eff).db, factor.Some?) == VerifySpec(c, s.db, id, row, code, i.row, i.now)
  {
    hide VerifyPlan;
  }
}
