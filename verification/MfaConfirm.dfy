/** One-time codes and `confirm_enrollment` under interleaving: a confirmation takes a used code
    exactly when the answer it ignores is negative, and there is a run in which it does. */
module MfaConfirm {
  import opened Prelude
  import opened Mfa
  import opened MfaInterleaving
  import opened MfaRedemption
  import opened MfaRace
  import MfaAttempts

  // ---------------------------------------------------------------- the marker and the log

  /** The event used this step or a later one between two resets of the marker. */
  predicate UsesFrom(e: Event, id: Id, epoch: nat, step: nat) {
    || (e.Accepted? && e.factor.TotpStep? && e.factor.id == id && e.factor.epoch == epoch && e.factor.step >= step)
    || (e.Confirmed? && e.id == id && e.epoch == epoch && e.step >= step)
  }

  /** One of the first `n` events used this step or a later one. */
  predicate Used(log: seq<Event>, n: nat, id: Id, epoch: nat, step: nat) {
    exists j :: 0 <= j < n <= |log| && UsesFrom(log[j], id, epoch, step)
  }

  /** A marker stands for a step that was used. */
  predicate MarkersUsed(s: State) {
    forall id :: id in s.db.identities && s.db.identities[id].lastStep.Some? ==>
      Used(s.log, |s.log|, id, Epoch(s, id), s.db.identities[id].lastStep.value)
  }

  lemma UsedStays(log: seq<Event>, log': seq<Event>, n: nat, n': nat)
    requires log <= log' && n <= |log| && n <= n' <= |log'|
    ensures forall id, epoch, step :: Used(log, n, id, epoch, step) ==> Used(log', n', id, epoch, step)
  {
  }

  /** With the invariant of the log, a step is refused exactly when it or a later one was used since
      the last reset. */
  lemma RefusedIffUsed(s: State, id: Id, step: nat)
    requires StepsOk(s) && MarkersUsed(s) && id in s.db.identities
    ensures !StepFresh(s.db, id, step) <==> Used(s.log, |s.log|, id, Epoch(s, id), step)
  {
    if j :| 0 <= j < |s.log| && UsesFrom(s.log[j], id, Epoch(s, id), step) {
      assert Marked(s, s.log[j]);
    }
    if !StepFresh(s.db, id, step) {
      var last := s.db.identities[id].lastStep.value;
      var j :| 0 <= j < |s.log| && UsesFrom(s.log[j], id, Epoch(s, id), last);
      assert UsesFrom(s.log[j], id, Epoch(s, id), step);
    }
  }

  // ---------------------------------------------------------------- statements

  lemma UseKeeps(s: State, req: Req, e: Effect)
    requires MarkersUsed(s) && (e.AcceptStep? || e.ConfirmMark?) && (e.AcceptStep? ==> StepFresh(s.db, e.id, e.step))
    ensures MarkersUsed(Do(s, req, e))
  {
    var s' := Do(s, req, e);
    UsedStays(s.log, s'.log, |s.log|, |s'.log|);
    if e.id in s.db.identities {
      assert UsesFrom(s'.log[|s.log|], e.id, Epoch(s, e.id), e.step);
      assert Used(s'.log, |s'.log|, e.id, Epoch(s, e.id), e.step);
    }
  }

  lemma ResetKeeps(s: State, req: Req, e: Effect)
    requires MarkersUsed(s) && (e.Pending? || e.Off?)
    ensures MarkersUsed(Do(s, req, e))
  {
    hide Used;
  }

  /** The other statements leave markers and epochs alone. */
  lemma MarkersSame(s: State, req: Req, e: Effect, id: Id)
    requires !e.AcceptStep? && !e.ConfirmMark? && !e.Pending? && !e.Off?
    ensures var s' := Do(s, req, e);
            Epoch(s', id) == Epoch(s, id) && (id in s'.db.identities <==> id in s.db.identities)
            && (id in s.db.identities ==> s'.db.identities[id].lastStep == s.db.identities[id].lastStep)
  {
    hide MarkStep, StepFresh;
  }

  lemma DoKeepsMarkers(s: State, req: Req, e: Effect)
    requires MarkersUsed(s) && EffectOk(s, e)
    ensures MarkersUsed(Do(s, req, e))
  {
    if e.AcceptStep? || e.ConfirmMark? {
      hide Do, MarkersUsed;
      UseKeeps(s, req, e);
    } else if e.Pending? || e.Off? {
      hide Do, MarkersUsed;
      ResetKeeps(s, req, e);
    } else {
      hide Do, Used, Epoch, EffectOk;
      LogIs(s, req, e);
      var s' := Do(s, req, e);
      UsedStays(s.log, s'.log, |s.log|, |s'.log|);
      forall id | id in s'.db.identities && s'.db.identities[id].lastStep.Some?
        ensures Used(s'.log, |s'.log|, id, Epoch(s', id), s'.db.identities[id].lastStep.value)
      {
        MarkersSame(s, req, e, id);
      }
    }
  }

  // ---------------------------------------------------------------- confirmations

  /** The answer a confirmation ignored was positive exactly when its step, and every later one, was
      unused before it. */
  predicate Answered(log: seq<Event>) {
    forall i :: 0 <= i < |log| && log[i].Confirmed? ==>
      (log[i].fresh' <==> !Used(log, i, log[i].id, log[i].epoch, log[i].step))
  }

  lemma UsedInPrefix(log: seq<Event>, log': seq<Event>, n: nat)
    requires log <= log' && n <= |log|
    ensures forall id, epoch, step :: Used(log, n, id, epoch, step) <==> Used(log', n, id, epoch, step)
  {
  }

  lemma DoKeepsAnswers(s: State, req: Req, e: Effect)
    requires Answered(s.log) && StepsOk(s) && MarkersUsed(s)
    ensures Answered(Do(s, req, e).log)
  {
    hide Do, Used, MarkersUsed, StepsOk, StepFresh, Epoch;
    LogIs(s, req, e);
    var log' := Do(s, req, e).log;
    forall i | 0 <= i < |s.log| && log'[i].Confirmed?
      ensures log'[i].fresh' <==> !Used(log', i, log'[i].id, log'[i].epoch, log'[i].step)
    {
      UsedInPrefix(s.log, log', i);
    }
    if e.ConfirmMark? && e.id in s.db.identities {
      RefusedIffUsed(s, e.id, e.step);
      UsedInPrefix(s.log, log', |s.log|);
    }
  }

  lemma OutsideKeepsMarkers(c: Crypto, s: State, a: Action)
    requires MarkersUsed(s) && !a.Run?
    ensures MarkersUsed(Next(c, s, a)) && Next(c, s, a).log == s.log
  {
    hide Used;
  }

  lemma {:induction false} AnsweredAlways(c: Crypto, actions: seq<Action>)
    ensures MarkersUsed(RunAll(c, actions)) && Answered(RunAll(c, actions).log)
    decreases |actions|
  {
    hide Next, MarkersUsed, Answered;
    if actions == [] {
      NothingYet();
    } else {
      var k := |actions| - 1;
      AnsweredAlways(c, actions[..k]);
      InvAlways(c, actions[..k]);
      var s := RunAll(c, actions[..k]);
      NextKeeps(c, s, actions[k]);
    }
  }

  lemma NothingYet()
    ensures MarkersUsed(START) && Answered(START.log)
  {
  }

  lemma NextKeeps(c: Crypto, s: State, a: Action)
    requires Inv(s) && MarkersUsed(s) && Answered(s.log)
    ensures MarkersUsed(Next(c, s, a)) && Answered(Next(c, s, a).log)
  {
    hide Program, Do, Used, Answered, TokensOk, TasksOk, MintsOk, IssuesOk, StepsOk, EffectOk;
    if a.Run? && a.req in s.tasks {
      var (eff, task') := Program(c, s, s.tasks[a.req], a.input);
      ProgramEffectOk(c, s, s.tasks[a.req], a.input);
      DoKeepsMarkers(s, a.req, eff);
      DoKeepsAnswers(s, a.req, eff);
      TasksDoNotCount(Do(s, a.req, eff), Next(c, s, a));
    } else if !a.Run? {
      OutsideKeepsMarkers(c, s, a);
    }
  }

  lemma TasksDoNotCount(s: State, s': State)
    requires MarkersUsed(s) && s' == s.(tasks := s'.tasks)
    ensures MarkersUsed(s')
  {
    hide Used;
  }

  /** In every interleaving, `mark_step_used` refuses a step exactly when it or a later one was used,
      to verify or to confirm, since the last reset of the marker. */
  lemma MarkRefusesIff(c: Crypto, actions: seq<Action>, id: Id, step: nat)
    requires id in RunAll(c, actions).db.identities
    ensures var s := RunAll(c, actions); !StepFresh(s.db, id, step) <==> Used(s.log, |s.log|, id, Epoch(s, id), step)
  {
    hide RunAll, StepFresh, Used, Epoch;
    InvAlways(c, actions);
    AnsweredAlways(c, actions);
    RefusedIffUsed(RunAll(c, actions), id, step);
  }

  /** So a confirmation takes a used step if and only if the answer it ignores is negative. */
  lemma ConfirmsUsedIff(c: Crypto, actions: seq<Action>, i: nat)
    requires i < |RunAll(c, actions).log| && RunAll(c, actions).log[i].Confirmed?
    ensures var log := RunAll(c, actions).log;
            Used(log, i, log[i].id, log[i].epoch, log[i].step) <==> !log[i].fresh'
  {
    AnsweredAlways(c, actions);
  }

  // ---------------------------------------------------------------- a used code confirms

  /** Enrollment begun once, and two confirmations. */
  function Pair(row: Identity, codes: map<Id, BackupCode>, used: set<Id>, t1: Task, t2: Task, log: seq<Event>): State {
    State(Db(map[ID := row], codes, map[], map[USER := MEMBER]), map[ID := 1], map[], used, map[0 := Task.Done, 1 := t1, 2 := t2], log)
  }

  function Issuing(at: nat, row: Id): Input { Input(at, true, TOKEN, "", row, map[row := "hash"]) }

  lemma Arriving(c: Crypto, secret: string, code: string)
    ensures var row := NEW_ROW.(secret := Some(secret)); var load := LoadForConfirm(ID, code);
            Can(c, Enrolled(secret), 0, Pair(row, map[], {}, load, load, []))
  {
    hide Can;
    var s0, row, load := Enrolled(secret), NEW_ROW.(secret := Some(secret)), LoadForConfirm(ID, code);
    Stay(c, s0, 0);
    var s1 := s0.(tasks := map[0 := Task.Done, 1 := load]);
    assert Next(c, s0, Spawn(1, load)) == s1;
    CalmStep(c, s0, 0, s0, Spawn(1, load), s1);
    var s2 := Pair(row, map[], {}, load, load, []);
    assert Next(c, s1, Spawn(2, load)) == s2;
    CalmStep(c, s0, 0, s1, Spawn(2, load), s2);
  }

  /** Both read the row before either marks its step. */
  lemma Reading(c: Crypto, secret: string, code: string, at: nat)
    ensures var row := NEW_ROW.(secret := Some(secret)); var load, mark := LoadForConfirm(ID, code), MarkConfirm(ID, row, code);
            Can(c, Pair(row, map[], {}, load, load, []), 0, Pair(row, map[], {}, mark, mark, []))
  {
    hide Can;
    var row := NEW_ROW.(secret := Some(secret));
    var load, mark := LoadForConfirm(ID, code), MarkConfirm(ID, row, code);
    var s0, s1, s2 := Pair(row, map[], {}, load, load, []), Pair(row, map[], {}, mark, load, []), Pair(row, map[], {}, mark, mark, []);
    Stay(c, s0, 0);
    assert Next(c, s0, Run(1, Issuing(at, 10))) == s1;
    CalmStep(c, s0, 0, s0, Run(1, Issuing(at, 10)), s1);
    assert Next(c, s1, Run(2, Issuing(at, 20))) == s2;
    CalmStep(c, s0, 0, s1, Run(2, Issuing(at, 20)), s2);
  }

  function Codes(row: Id): map<Id, BackupCode> { map[row := BackupCode(ID, "hash", false)] }

  lemma ConfirmRuns(c: Crypto, s: State, loaded: Identity, code: string, at: nat, k: nat, row: Id)
    requires ConfirmStep(c, loaded, code, at) == Some(k) && row !in s.usedRows
    ensures Program(c, s, MarkConfirm(ID, loaded, code), Issuing(at, row)) == (ConfirmMark(ID, k), TurnOn(ID))
    ensures Program(c, s, TurnOn(ID), Issuing(at, row)) == (On(ID, map[row := "hash"]), Task.Done)
  {
    hide ConfirmStep;
  }

  lemma Marks(row: Identity, codes: map<Id, BackupCode>, used: set<Id>, t1: Task, t2: Task, log: seq<Event>, req: Req, k: nat)
    requires row.lastStep == None || row.lastStep == Some(k)
    ensures Do(Pair(row, codes, used, t1, t2, log), req, ConfirmMark(ID, k))
            == Pair(row.(lastStep := Some(k)), codes, used, t1, t2, log + [Confirmed(req, ID, 1, k, row.lastStep == None)])
  {
    var s' := Do(Pair(row, codes, used, t1, t2, log), req, ConfirmMark(ID, k));
    assert s'.db.identities == map[ID := row.(lastStep := Some(k))];
  }

  lemma HandsOut(row: Identity, codes: map<Id, BackupCode>, used: set<Id>, t1: Task, t2: Task, log: seq<Event>, req: Req, fresh': Id)
    requires codes == map[] || codes == Codes(10)
    ensures Do(Pair(row, codes, used, t1, t2, log), req, On(ID, map[fresh' := "hash"]))
            == Pair(row.(mfaEnabled := true), Codes(fresh'), used + {fresh'}, t1, t2, log)
  {
    var s' := Do(Pair(row, codes, used, t1, t2, log), req, On(ID, map[fresh' := "hash"]));
    assert s'.db.identities == map[ID := row.(mfaEnabled := true)];
    assert s'.db.codes == Codes(fresh');
  }

  /** The first marks the step and turns MFA on. */
  lemma FirstConfirms(c: Crypto, secret: string, code: string, at: nat, k: nat)
    requires ConfirmStep(c, NEW_ROW.(secret := Some(secret)), code, at) == Some(k)
    ensures var row := NEW_ROW.(secret := Some(secret)); var mark := MarkConfirm(ID, row, code);
            Can(c, Pair(row, map[], {}, mark, mark, []), 0,
                Pair(OnRow(secret, k), Codes(10), {10}, Task.Done, mark, [Confirmed(1, ID, 1, k, true)]))
  {
    hide Can, ConfirmStep, Program, Do;
    var row, i := NEW_ROW.(secret := Some(secret)), Issuing(at, 10);
    var mark, log := MarkConfirm(ID, row, code), [Confirmed(1, ID, 1, k, true)];
    var s0, s1 := Pair(row, map[], {}, mark, mark, []), Pair(row.(lastStep := Some(k)), map[], {}, TurnOn(ID), mark, log);
    Stay(c, s0, 0);
    ConfirmRuns(c, s0, row, code, at, k, 10);
    RunIs(c, s0, 1, i, ConfirmMark(ID, k), TurnOn(ID));
    Marks(row, map[], {}, mark, mark, [], 1, k);
    assert [] + log == log;
    CalmStep(c, s0, 0, s0, Run(1, i), s1);
    var s2 := Pair(OnRow(secret, k), Codes(10), {10}, Task.Done, mark, log);
    ConfirmRuns(c, s1, row, code, at, k, 10);
    RunIs(c, s1, 1, i, On(ID, map[10 := "hash"]), Task.Done);
    HandsOut(row.(lastStep := Some(k)), map[], {}, TurnOn(ID), mark, log, 1, 10);
    assert {} + {10} == {10};
    CalmStep(c, s0, 0, s1, Run(1, i), s2);
  }

  /** The second is refused the step, confirms all the same, and replaces the backup codes. */
  lemma SecondConfirms(c: Crypto, secret: string, code: string, at: nat, k: nat)
    requires ConfirmStep(c, NEW_ROW.(secret := Some(secret)), code, at) == Some(k)
    ensures var mark := MarkConfirm(ID, NEW_ROW.(secret := Some(secret)), code);
            Can(c, Pair(OnRow(secret, k), Codes(10), {10}, Task.Done, mark, [Confirmed(1, ID, 1, k, true)]), 0,
                Pair(OnRow(secret, k), Codes(20), {10} + {20}, Task.Done, Task.Done,
                     [Confirmed(1, ID, 1, k, true)] + [Confirmed(2, ID, 1, k, false)]))
  {
    hide Can, ConfirmStep, Program, Do, Codes;
    var loaded, i := NEW_ROW.(secret := Some(secret)), Issuing(at, 20);
    var mark, first := MarkConfirm(ID, loaded, code), [Confirmed(1, ID, 1, k, true)];
    var log := first + [Confirmed(2, ID, 1, k, false)];
    var s0 := Pair(OnRow(secret, k), Codes(10), {10}, Task.Done, mark, first);
    var s1 := Pair(OnRow(secret, k), Codes(10), {10}, Task.Done, TurnOn(ID), log);
    Stay(c, s0, 0);
    ConfirmRuns(c, s0, loaded, code, at, k, 20);
    RunIs(c, s0, 2, i, ConfirmMark(ID, k), TurnOn(ID));
    Marks(OnRow(secret, k), Codes(10), {10}, Task.Done, mark, first, 2, k);
    CalmStep(c, s0, 0, s0, Run(2, i), s1);
    ConfirmRuns(c, s1, loaded, code, at, k, 20);
    RunIs(c, s1, 2, i, On(ID, map[20 := "hash"]), Task.Done);
    HandsOut(OnRow(secret, k), Codes(10), {10}, Task.Done, TurnOn(ID), log, 2, 20);
    CalmStep(c, s0, 0, s1, Run(2, i), Pair(OnRow(secret, k), Codes(20), {10} + {20}, Task.Done, Task.Done, log));
  }

  /** From the empty database: one code confirms twice, the second time with a negative answer, and
      the backup codes handed out first are gone. */
  lemma UsedCodeConfirms(c: Crypto, secret: string, code: string, at: nat, k: nat) returns (actions: seq<Action>)
    requires ConfirmStep(c, NEW_ROW.(secret := Some(secret)), code, at) == Some(k)
    ensures var s := RunAll(c, actions);
            && s.log == [Confirmed(1, ID, 1, k, true), Confirmed(2, ID, 1, k, false)]
            && ID in s.db.identities && s.db.identities[ID].mfaEnabled && s.db.codes == Codes(20)
  {
    var row := NEW_ROW.(secret := Some(secret));
    var load, mark := LoadForConfirm(ID, code), MarkConfirm(ID, row, code);
    var s1, s2 := Pair(row, map[], {}, load, load, []), Pair(row, map[], {}, mark, mark, []);
    var s3 := Pair(OnRow(secret, k), Codes(10), {10}, Task.Done, mark, [Confirmed(1, ID, 1, k, true)]);
    var s4 := Pair(OnRow(secret, k), Codes(20), {10} + {20}, Task.Done, Task.Done,
                   [Confirmed(1, ID, 1, k, true)] + [Confirmed(2, ID, 1, k, false)]);
    hide Can, ConfirmStep, RunFrom, MfaAttempts.Within, OnRow, Enrolled;
    Enrolling(c, secret, at, 0);
    Arriving(c, secret, code);
    Reading(c, secret, code, at);
    FirstConfirms(c, secret, code, at, k);
    SecondConfirms(c, secret, code, at, k);
    Through(c, START, 0, Enrolled(secret), s1);
    Through(c, START, 0, s1, s2);
    Through(c, START, 0, s2, s3);
    Through(c, START, 0, s3, s4);
    actions := CanRun(c, START, 0, s4);
    RowIsOn(secret, k);
  }

  lemma CanRun(c: Crypto, s: State, m: nat, s': State) returns (actions: seq<Action>)
    requires Can(c, s, m, s')
    ensures RunFrom(c, s, actions) == s'
  {
    hide RunFrom;
    actions :| RunFrom(c, s, actions) == s' && MfaAttempts.Within(c, s, actions, TOKEN, m);
  }

  lemma RowIsOn(secret: string, k: nat)
    ensures OnRow(secret, k).mfaEnabled
  {
  }
}
