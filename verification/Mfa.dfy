/** Second factors: the statements of `src/repo/mfa.rs` on their tables, the decisions of
    `src/services/mfa.rs`, and the gates every login passes. HMAC and SHA-256 are parameters. */
module Mfa {
  import opened Prelude
  import Rsql

  // Stand for UUIDs and random tokens.
  type Id = int
  type Token = string

  const STEP_SECS := 30
  const BACKUP_CODE_LEN := 10
  const TOTP_DIGITS := 6
  const MAX_MFA_ATTEMPTS := 5
  const CHALLENGE_TTL := 300
  const LOCK_AFTER := 5
  const LOCK_SECS := 900

  /** The columns of `identities` the login and MFA code reads. */
  datatype Identity = Identity(
    active: bool, password: Option<string>, forceChange: bool,
    mfaEnabled: bool, secret: Option<string>, lastStep: Option<nat>,
    failed: nat, lockedUntil: Option<int>)

  datatype BackupCode = BackupCode(identity: Id, hash: string, consumed: bool)

  datatype Challenge = Challenge(user: Id, attempts: nat, expires: int)

  /** A membership: a user of one tenant, backed by a global identity. */
  datatype Member = Member(tenant: string, identity: Id, active: bool, validUntil: Option<int>)

  datatype Db = Db(identities: map<Id, Identity>, codes: map<Id, BackupCode>,
                   challenges: map<Token, Challenge>, users: map<Id, Member>)

  /** The cryptography: the code of a secret at a time step, and the backup-code hash. */
  datatype Crypto = Crypto(totp: (string, nat) -> string, hash: string -> string)

  datatype Refusal =
    | NotFound | NoMembership | NotActive | Locked | AccessExpired | MethodNotAllowed | BadToken | TooManyAttempts | BadRequest

  /** `check_gates`. */
  function CheckGates(m: Member, row: Identity, now: nat): Option<Refusal> {
    if !m.active || !row.active then Some(NotActive)
    else if row.lockedUntil.Some? && row.lockedUntil.value > now then Some(Locked)
    else if m.validUntil.Some? && now > m.validUntil.value then Some(AccessExpired)
    else None
  }

  /** The gates are open exactly for an active member of an active identity, not locked, whose access
      has not ended; closed, they name the first of these that fails. */
  lemma GatesIff(m: Member, row: Identity, now: nat)
    ensures CheckGates(m, row, now) == None <==>
              && m.active && row.active
              && (forall until :: row.lockedUntil == Some(until) ==> until <= now)
              && (forall until :: m.validUntil == Some(until) ==> now <= until)
    ensures CheckGates(m, row, now) == Some(NotActive) <==> !(m.active && row.active)
    ensures CheckGates(m, row, now) == Some(Locked) <==>
              m.active && row.active && exists until :: row.lockedUntil == Some(until) && now < until
    ensures CheckGates(m, row, now) == Some(AccessExpired) <==>
              && m.active && row.active
              && (forall until :: row.lockedUntil == Some(until) ==> until <= now)
              && exists until :: m.validUntil == Some(until) && until < now
  {
    if row.lockedUntil.Some? { assert row.lockedUntil == Some(row.lockedUntil.value); }
    if m.validUntil.Some? { assert m.validUntil == Some(m.validUntil.value); }
  }

  // ---------------------------------------------------------------- the service's decisions

  predicate Dropped(c: char) { Rsql.White(c) || c == '-' }

  function NormalizeCode(code: string): string {
    if code == "" then ""
    else if Dropped(code[0]) then NormalizeCode(code[1..])
    else [Rsql.LowerChar(code[0])] + NormalizeCode(code[1..])
  }

  predicate IsTotpCode(code: string) {
    |code| == TOTP_DIGITS && forall i :: 0 <= i < |code| ==> '0' <= code[i] <= '9'
  }

  /** The first time step within one of the clock's whose code this is. */
  function MatchingStep(c: Crypto, secret: string, code: string, now: nat): (r: Option<nat>)
    ensures r.Some? ==> c.totp(secret, r.value) == code && now / STEP_SECS - 1 <= r.value <= now / STEP_SECS + 1
    ensures r.Some? ==> forall k: nat :: now / STEP_SECS - 1 <= k < r.value ==> c.totp(secret, k) != code
    ensures r.None? ==> forall k: nat :: now / STEP_SECS - 1 <= k <= now / STEP_SECS + 1 ==> c.totp(secret, k) != code
  {
    var current := now / STEP_SECS;
    if current >= 1 && c.totp(secret, current - 1) == code then Some(current - 1)
    else if c.totp(secret, current) == code then Some(current)
    else if c.totp(secret, current + 1) == code then Some(current + 1)
    else None
  }

  /** What `verify` will ask of the database for a code, judged on the loaded identity. */
  datatype Plan = Reject | UseStep(step: nat) | UseCode(hash: string)

  function VerifyPlan(c: Crypto, row: Identity, raw: string, now: nat): Plan {
    if !row.mfaEnabled then Reject
    else
      var code := NormalizeCode(raw);
      if IsTotpCode(code) then
        if row.secret.None? then Reject
        else
          match MatchingStep(c, row.secret.value, code, now)
          case Some(k) => UseStep(k)
          case None => Reject
      else if |code| != BACKUP_CODE_LEN then Reject
      else UseCode(c.hash(code))
  }

  /** The step that confirms an enrollment, if the code is right. */
  function ConfirmStep(c: Crypto, row: Identity, raw: string, now: nat): Option<nat> {
    var code := NormalizeCode(raw);
    if row.mfaEnabled || row.secret.None? || !IsTotpCode(code) then None
    else MatchingStep(c, row.secret.value, code, now)
  }

  // ---------------------------------------------------------------- statements

  function SetIdentity(db: Db, id: Id, row: Identity): Db { db.(identities := db.identities[id := row]) }

  function SetPendingSecret(db: Db, id: Id, secret: string): Db {
    if id !in db.identities then db
    else SetIdentity(db, id, db.identities[id].(secret := Some(secret), mfaEnabled := false, lastStep := None))
  }

  /** The condition of the `mark_step_used` UPDATE. */
  predicate StepFresh(db: Db, id: Id, step: nat) {
    id in db.identities && (db.identities[id].lastStep.None? || db.identities[id].lastStep.value < step)
  }

  function MarkStep(db: Db, id: Id, step: nat): Db {
    if StepFresh(db, id, step) then SetIdentity(db, id, db.identities[id].(lastStep := Some(step))) else db
  }

  /** A row the `consume_backup_code` UPDATE may pick. */
  predicate Consumable(db: Db, id: Id, hash: string, row: Id) {
    row in db.codes && db.codes[row].identity == id && db.codes[row].hash == hash && !db.codes[row].consumed
  }

  function ConsumeRow(db: Db, row: Id): Db
    requires row in db.codes
  {
    db.(codes := db.codes[row := db.codes[row].(consumed := true)])
  }

  /** The tables after `verify` and whether it accepted; `codeRow` is the row the database picks. */
  function VerifySpec(c: Crypto, db: Db, id: Id, row: Identity, code: string, codeRow: Id, now: nat): (Db, bool) {
    match VerifyPlan(c, row, code, now)
    case Reject => (db, false)
    case UseStep(step) => (MarkStep(db, id, step), StepFresh(db, id, step))
    case UseCode(hash) => if Consumable(db, id, hash, codeRow) then (ConsumeRow(db, codeRow), true) else (db, false)
  }

  /** DELETE the identity's codes and INSERT the new hashes under the given row ids. */
  function ReplaceCodes(db: Db, id: Id, issued: map<Id, string>): Db {
    db.(codes := (map r | r in db.codes && db.codes[r].identity != id :: db.codes[r])
                 + (map r | r in issued :: BackupCode(id, issued[r], false)))
  }

  function Enable(db: Db, id: Id, issued: map<Id, string>): Db {
    if id !in db.identities then db
    else ReplaceCodes(SetIdentity(db, id, db.identities[id].(mfaEnabled := true)), id, issued)
  }

  function Disable(db: Db, id: Id): Db {
    if id !in db.identities then db
    else ReplaceCodes(SetIdentity(db, id, db.identities[id].(mfaEnabled := false, secret := None, lastStep := None)), id, map[])
  }

  function PurgeChallenges(db: Db, now: int): Db {
    db.(challenges := map t | t in db.challenges && db.challenges[t].expires > now :: db.challenges[t])
  }

  function InsertChallenge(db: Db, token: Token, user: Id, expires: int): Db {
    db.(challenges := db.challenges[token := Challenge(user, 0, expires)])
  }

  function IncrementAttempts(db: Db, token: Token): Db {
    if token !in db.challenges then db
    else
      var ch := db.challenges[token];
      db.(challenges := db.challenges[token := ch.(attempts := ch.attempts + 1)])
  }

  function DeleteChallenge(db: Db, token: Token): Db { db.(challenges := db.challenges - {token}) }

  /** What enrollment, confirmation and turning off write: the MFA columns of the one identity, and
      its backup codes, which become exactly the issued hashes, unused. */
  lemma EnrollmentWrites(db: Db, id: Id, secret: string, issued: map<Id, string>)
    requires id in db.identities && issued.Keys !! db.codes.Keys
    ensures var was := db.identities[id];
            && SetPendingSecret(db, id, secret)
               == db.(identities := db.identities[id := was.(secret := Some(secret), mfaEnabled := false, lastStep := None)])
            && Enable(db, id, issued).identities == db.identities[id := was.(mfaEnabled := true)]
            && Disable(db, id).identities == db.identities[id := was.(mfaEnabled := false, secret := None, lastStep := None)]
    ensures CodesReplaced(db, Enable(db, id, issued), id, issued) && CodesReplaced(db, Disable(db, id), id, map[])
    ensures CodesReplaced(db, ReplaceCodes(db, id, issued), id, issued) && ReplaceCodes(db, id, issued).identities == db.identities
  {
  }

  ghost predicate CodesReplaced(db: Db, db': Db, id: Id, issued: map<Id, string>) {
    && db'.challenges == db.challenges && db'.users == db.users
    && (forall r :: r in db.codes && db.codes[r].identity != id ==> r in db'.codes && db'.codes[r] == db.codes[r])
    && (forall r :: r in db'.codes && db'.codes[r].identity != id ==> r in db.codes)
    && (forall r :: r in db'.codes && db'.codes[r].identity == id <==> r in issued)
    && forall r :: r in issued && r in db'.codes ==> db'.codes[r] == BackupCode(id, issued[r], false)
  }

  // ---------------------------------------------------------------- what a right code is

  predicate SixDigits(n: string) { |n| == 6 && forall i :: 0 <= i < 6 ==> '0' <= n[i] <= '9' }

  /** The step is in the window of three around the clock's and gives this code, the earliest that
      does. */
  predicate FirstStep(c: Crypto, secret: string, n: string, now: nat, step: nat) {
    && now / 30 - 1 <= step <= now / 30 + 1 && c.totp(secret, step) == n
    && forall k: nat :: now / 30 - 1 <= k < step ==> c.totp(secret, k) != n
  }

  /** A time code above the marker. */
  ghost predicate TimeCodeRight(c: Crypto, db: Db, id: Id, row: Identity, raw: string, now: nat) {
    && SixDigits(NormalizeCode(raw)) && row.secret.Some? && id in db.identities
    && exists step: nat :: FirstStep(c, row.secret.value, NormalizeCode(raw), now, step)
         && (db.identities[id].lastStep.None? || db.identities[id].lastStep.value < step)
  }

  /** An unused row of the identity that holds the hash of a ten-character code. */
  predicate RowHolds(c: Crypto, db: Db, id: Id, raw: string, codeRow: Id) {
    && |NormalizeCode(raw)| == 10
    && codeRow in db.codes && db.codes[codeRow].identity == id && !db.codes[codeRow].consumed
    && db.codes[codeRow].hash == c.hash(NormalizeCode(raw))
  }

  lemma StepIs(c: Crypto, secret: string, n: string, now: nat)
    ensures MatchingStep(c, secret, n, now).None? <==> forall step: nat :: !FirstStep(c, secret, n, now, step)
    ensures forall step: nat :: FirstStep(c, secret, n, now, step) <==> MatchingStep(c, secret, n, now) == Some(step)
  {
    hide MatchingStep;
    var r := MatchingStep(c, secret, n, now);
    if r.Some? {
      assert FirstStep(c, secret, n, now, r.value);
    }
  }

  /** `verify` accepts exactly with MFA on and a right time code above the marker, or a backup code
      held by the row the database picks. */
  lemma VerifyIff(c: Crypto, db: Db, id: Id, row: Identity, raw: string, codeRow: Id, now: nat)
    ensures VerifySpec(c, db, id, row, raw, codeRow, now).1 <==>
              row.mfaEnabled && (TimeCodeRight(c, db, id, row, raw, now) || RowHolds(c, db, id, raw, codeRow))
  {
    hide MatchingStep, NormalizeCode;
    if row.secret.Some? {
      StepIs(c, row.secret.value, NormalizeCode(raw), now);
    }
  }

  // ---------------------------------------------------------------- the repository and service, one request at a time

  class MfaRepo {
    var identities: map<Id, Identity>
    var codes: map<Id, BackupCode>
    var challenges: map<Token, Challenge>
    const users: map<Id, Member>

    ghost function Tables(): Db
      reads this
    {
      Db(identities, codes, challenges, users)
    }

    constructor (db: Db)
      ensures Tables() == db
    {
      identities, codes, challenges, users := db.identities, db.codes, db.challenges, db.users;
    }

    method MarkStepUsed(id: Id, step: nat) returns (ok: bool)
      modifies this`identities
      ensures ok == StepFresh(old(Tables()), id, step) && Tables() == MarkStep(old(Tables()), id, step)
    {
      ok := false;
      if id in identities {
        var last := identities[id].lastStep;
        if last.None? || last.value < step {
          identities := identities[id := identities[id].(lastStep := Some(step))];
          ok := true;
        }
      }
    }

    /** Any unused matching row may be picked; `picked` is the one that was. */
    method ConsumeBackupCode(id: Id, hash: string) returns (ok: bool, ghost picked: Id)
      modifies this`codes
      ensures ok == (exists row :: Consumable(old(Tables()), id, hash, row))
      ensures ok ==> Consumable(old(Tables()), id, hash, picked) && Tables() == ConsumeRow(old(Tables()), picked)
      ensures !ok ==> Tables() == old(Tables())
    {
      picked := 0;
      ok := exists row :: row in codes && codes[row].identity == id && codes[row].hash == hash && !codes[row].consumed;
      if ok {
        var row :| row in codes && codes[row].identity == id && codes[row].hash == hash && !codes[row].consumed;
        assert Consumable(Tables(), id, hash, row);
        codes := codes[row := codes[row].(consumed := true)];
        picked := row;
      }
    }

    /** `delete_challenge`: whether a row was there to delete. */
    method RedeemChallenge(token: Token) returns (ok: bool)
      modifies this`challenges
      ensures ok == (token in old(challenges)) && Tables() == DeleteChallenge(old(Tables()), token)
    {
      ok := token in challenges;
      challenges := challenges - {token};
    }

    /** `verify`: accepts exactly a fresh time step or an unused backup code, and spends it. */
    method Verify(c: Crypto, id: Id, row: Identity, raw: string, now: nat) returns (ok: bool, ghost picked: Id)
      modifies this`identities, this`codes
      ensures (Tables(), ok) == VerifySpec(c, old(Tables()), id, row, raw, picked, now)
      ensures ok <==> row.mfaEnabled
                      && (TimeCodeRight(c, old(Tables()), id, row, raw, now) || exists r :: RowHolds(c, old(Tables()), id, raw, r))
    {
      picked := 0;
      ok := false;
      if !row.mfaEnabled { return; }
      var code := NormalizeCode(raw);
      if IsTotpCode(code) {
        if row.secret.None? { return; }
        StepIs(c, row.secret.value, code, now);
        match MatchingStep(c, row.secret.value, code, now) {
          case Some(k) => ok := MarkStepUsed(id, k);
          case None =>
        }
        return;
      }
      if |code| != BACKUP_CODE_LEN { return; }
      ghost var before := Tables();
      ok, picked := ConsumeBackupCode(id, c.hash(code));
      forall r ensures RowHolds(c, before, id, raw, r) <==> Consumable(before, id, c.hash(code), r) {
      }
    }

    /** `confirm_enrollment`: records the step, whether or not it was fresh, and turns MFA on. */
    method ConfirmEnrollment(c: Crypto, id: Id, row: Identity, raw: string, now: nat, issued: map<Id, string>)
      returns (ok: bool)
      requires id in identities
      modifies this
      ensures match ConfirmStep(c, row, raw, now)
              case None => !ok && Tables() == old(Tables())
              case Some(k) => ok && Tables() == Enable(MarkStep(old(Tables()), id, k), id, issued)
    {
      if row.mfaEnabled { return false; }
      if row.secret.None? { return false; }
      var code := NormalizeCode(raw);
      if !IsTotpCode(code) { return false; }
      match MatchingStep(c, row.secret.value, code, now) {
        case None => return false;
        case Some(k) =>
          var _ := MarkStepUsed(id, k);
          identities := identities[id := identities[id].(mfaEnabled := true)];
          codes := (map r | r in codes && codes[r].identity != id :: codes[r])
                   + (map r | r in issued :: BackupCode(id, issued[r], false));
          ok := true;
      }
    }
  }
}
