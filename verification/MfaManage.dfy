/** MFA is turned on, turned off and given new backup codes only by a request whose own code was
    accepted for that identity, under every interleaving. */
module MfaManage {
  import opened Prelude
  import opened Mfa
  import opened MfaInterleaving
  import MfaAlone
  import MfaVerify

  /** The request's code was accepted for this identity. */
  predicate CodeAccepted(log: seq<Event>, req: Req, id: Id) {
    exists j :: 0 <= j < |log| && log[j].Accepted? && log[j].req == req && log[j].id == id
  }

  predicate CodeConfirmed(log: seq<Event>, req: Req, id: Id) {
    exists j :: 0 <= j < |log| && log[j].Confirmed? && log[j].req == req && log[j].id == id
  }

  predicate TaskEarned(log: seq<Event>, req: Req, task: Task) {
    match task
    case Manage(id, _) => CodeAccepted(log, req, id)
    case TurnOn(id) => CodeConfirmed(log, req, id)
    case _ => true
  }

  predicate AllEarned(s: State) { forall req :: req in s.tasks ==> TaskEarned(s.log, req, s.tasks[req]) }

  lemma EarnedStays(log: seq<Event>, log': seq<Event>, req: Req, task: Task)
    requires TaskEarned(log, req, task) && log <= log'
    ensures TaskEarned(log', req, task)
  {
  }

  /** Checking a code accepts it in the log, for the request and the identity. */
  lemma AcceptedInLog(c: Crypto, s: State, req: Req, id: Id, row: Identity, code: string, i: Input)
    ensures var (eff, factor) := VerifyEffect(c, s, id, row, code, i);
            factor.Some? ==> CodeAccepted(Do(s, req, eff).log, req, id)
  {
    hide VerifyPlan, MarkStep;
    var (eff, factor) := VerifyEffect(c, s, id, row, code, i);
    if factor.Some? {
      var log := Do(s, req, eff).log;
      assert log == s.log + [Accepted(req, id, factor.value, i.now)];
      assert log[|s.log|].Accepted?;
    }
  }

  lemma ConfirmedInLog(c: Crypto, s: State, req: Req, id: Id, k: nat)
    requires id in s.db.identities
    ensures CodeConfirmed(Do(s, req, ConfirmMark(id, k)).log, req, id)
  {
    hide MarkStep;
    var log := Do(s, req, ConfirmMark(id, k)).log;
    assert log[|s.log|].Confirmed?;
  }

  /** The row a request confirms on is an identity's. */
  predicate ConfirmsKnown(s: State) {
    forall req :: req in s.tasks && s.tasks[req].MarkConfirm? ==> s.tasks[req].id in s.db.identities
  }

  lemma StatementEarns(c: Crypto, s: State, req: Req, i: Input)
    requires req in s.tasks && (s.tasks[req].MarkConfirm? ==> s.tasks[req].id in s.db.identities)
    ensures var (eff, task) := Program(c, s, s.tasks[req], i); TaskEarned(Do(s, req, eff).log, req, task)
  {
    if s.tasks[req].CheckManage? {
      var CheckManage(id, row, code, off) := s.tasks[req];
      hide VerifyEffect, Do;
      AcceptedInLog(c, s, req, id, row, code, i);
    } else if s.tasks[req].MarkConfirm? {
      var MarkConfirm(id, row, code) := s.tasks[req];
      hide ConfirmStep, Do;
      var r := ConfirmStep(c, row, code, i.now);
      if r.Some? {
        ConfirmedInLog(c, s, req, id, r.value);
      }
    } else {
      hide VerifyEffect, Do, CheckGates, CodeAccepted, CodeConfirmed;
    }
  }

  lemma IdentitiesStay(s: State, req: Req, e: Effect)
    ensures s.db.identities.Keys <= Do(s, req, e).db.identities.Keys
  {
  }

  lemma MarksKnown(c: Crypto, s: State, task: Task, i: Input)
    ensures var task' := Program(c, s, task, i).1; task'.MarkConfirm? ==> task'.id in s.db.identities
  {
    hide VerifyEffect, CheckGates, ConfirmStep;
  }

  lemma RunEarns(c: Crypto, s: State, req: Req, i: Input)
    requires AllEarned(s) && ConfirmsKnown(s) && req in s.tasks
    ensures AllEarned(Next(c, s, Run(req, i))) && ConfirmsKnown(Next(c, s, Run(req, i)))
  {
    hide Program, Do, TaskEarned;
    var eff := Program(c, s, s.tasks[req], i).0;
    StatementEarns(c, s, req, i);
    MfaVerify.LogExtends(s, req, eff);
    IdentitiesStay(s, req, eff);
    MarksKnown(c, s, s.tasks[req], i);
    forall q | q in s.tasks ensures TaskEarned(Do(s, req, eff).log, q, s.tasks[q]) {
      EarnedStays(s.log, Do(s, req, eff).log, q, s.tasks[q]);
    }
  }

  lemma OtherEarns(c: Crypto, s: State, a: Action)
    requires AllEarned(s) && ConfirmsKnown(s) && (a.Run? ==> a.req !in s.tasks)
    ensures AllEarned(Next(c, s, a)) && ConfirmsKnown(Next(c, s, a))
  {
    hide CodeAccepted, CodeConfirmed;
  }

  lemma {:induction false} EarnedAlways(c: Crypto, actions: seq<Action>)
    ensures AllEarned(RunAll(c, actions)) && ConfirmsKnown(RunAll(c, actions))
    decreases |actions|
  {
    hide Next, AllEarned, ConfirmsKnown;
    if actions == [] {
      NothingToEarn();
    } else {
      var n := |actions| - 1;
      EarnedAlways(c, actions[..n]);
      var s, a := RunAll(c, actions[..n]), actions[n];
      if a.Run? && a.req in s.tasks {
        RunEarns(c, s, a.req, a.input);
      } else {
        OtherEarns(c, s, a);
      }
    }
  }

  lemma NothingToEarn()
    ensures AllEarned(START) && ConfirmsKnown(START)
  {
  }

  /** After every run: the statement that turns MFA off or replaces backup codes belongs to a request
      whose code was accepted for that identity, and the one that turns it on to a request whose code
      confirmed that identity's enrollment. */
  lemma ChangesAreEarned(c: Crypto, actions: seq<Action>, req: Req, i: Input)
    requires req in RunAll(c, actions).tasks
    ensures var s := RunAll(c, actions); var eff := Program(c, s, s.tasks[req], i).0;
            && (eff.Off? || eff.NewCodes? ==> CodeAccepted(s.log, req, eff.id))
            && (eff.On? ==> CodeConfirmed(s.log, req, eff.id))
  {
    hide RunAll, CodeAccepted, CodeConfirmed, VerifyPlan, CheckGates, ConfirmStep;
    EarnedAlways(c, actions);
  }

  // ---------------------------------------------------------------- one request at a time

  /** Run alone, the three statements of turning off or replacing codes check the code as `verify`
      does, and write only if it was right. */
  lemma ManageAlone(c: Crypto, s: State, req: Req, id: Id, code: string, off: bool, i: Input)
    requires req in s.tasks && s.tasks[req] == LoadForManage(id, code, off) && id in s.db.identities && IssuedFresh(s, i.issued)
    ensures var s' := MfaAlone.Alone(c, s, req, [i, i, i]); var (db, ok) := VerifySpec(c, s.db, id, s.db.identities[id], code, i.row, i.now);
            s'.db == if !ok then s.db else if off then Disable(db, id) else ReplaceCodes(db, id, i.issued)
  {
    hide Next, Program, Do, VerifySpec, VerifyEffect, Disable, ReplaceCodes;
    var row := s.db.identities[id];
    var s1 := Next(c, s, Run(req, i));
    var s2 := Next(c, s1, Run(req, i));
    assert [i, i, i] == [i] + [i, i] && [i, i] == [i] + [i] && [i] == [i] + [];
    MfaAlone.OneMore(c, s, req, i, [i, i]);
    MfaAlone.OneMore(c, s1, req, i, [i]);
    MfaAlone.OneMore(c, s2, req, i, []);
    LoadForManageIs(c, s, req, id, code, off, i);
    CheckManageIs(c, s1, req, id, row, code, off, i);
    if s2.tasks[req].Done? {
      MfaAlone.StaysDone(c, s2, req, [i]);
    } else {
      ManageIs(c, s2, req, id, off, i);
      MfaAlone.StaysDone(c, Next(c, s2, Run(req, i)), req, []);
    }
  }

  lemma LoadForManageIs(c: Crypto, s: State, req: Req, id: Id, code: string, off: bool, i: Input)
    requires req in s.tasks && s.tasks[req] == LoadForManage(id, code, off) && id in s.db.identities
    ensures var s' := Next(c, s, Run(req, i)); var row := s.db.identities[id];
            MfaAlone.Moved(s, s', req, CheckManage(id, row, code, off), s.db, [Loaded(req, id, row)]) && s'.usedRows == s.usedRows
  {
    MfaAlone.StatementIs(c, s, req, i);
  }

  lemma CheckManageIs(c: Crypto, s: State, req: Req, id: Id, row: Identity, code: string, off: bool, i: Input)
    requires req in s.tasks && s.tasks[req] == CheckManage(id, row, code, off)
    ensures var s' := Next(c, s, Run(req, i)); var (db, ok) := VerifySpec(c, s.db, id, row, code, i.row, i.now);
            && req in s'.tasks && s'.tasks[req] == (if ok then Manage(id, off) else Task.Done)
            && s'.db == (if ok then db else s.db) && s'.usedRows == s.usedRows
  {
    hide Next, VerifyEffect, VerifySpec, Do;
    MfaAlone.StatementIs(c, s, req, i);
    MfaAlone.CheckedIs(c, s, req, id, row, code, i);
    RowsUnused(s, req, c, id, row, code, i);
    MfaAlone.DoneIsQuiet(c, s, req, i);
  }

  lemma RowsUnused(s: State, req: Req, c: Crypto, id: Id, row: Identity, code: string, i: Input)
    ensures Do(s, req, VerifyEffect(c, s, id, row, code, i).0).usedRows == s.usedRows
  {
    hide VerifyPlan;
  }

  lemma ManageIs(c: Crypto, s: State, req: Req, id: Id, off: bool, i: Input)
    requires req in s.tasks && s.tasks[req] == Manage(id, off) && IssuedFresh(s, i.issued)
    ensures var s' := Next(c, s, Run(req, i));
            && req in s'.tasks && s'.tasks[req].Done?
            && s'.db == if off then Disable(s.db, id) else ReplaceCodes(s.db, id, i.issued)
  {
    hide Disable, ReplaceCodes;
    MfaAlone.StatementIs(c, s, req, i);
  }

  /** Run alone, the two statements of starting an enrollment store the new secret exactly while MFA is
      off. */
  lemma EnrollAlone(c: Crypto, s: State, req: Req, id: Id, i: Input)
    requires req in s.tasks && s.tasks[req] == LoadForEnroll(id)
    ensures MfaAlone.Alone(c, s, req, [i, i]).db
            == if id in s.db.identities && !s.db.identities[id].mfaEnabled then SetPendingSecret(s.db, id, i.secret) else s.db
  {
    hide Next, Program, Do, SetPendingSecret;
    var s1 := Next(c, s, Run(req, i));
    assert [i, i] == [i] + [i] && [i] == [i] + [];
    MfaAlone.OneMore(c, s, req, i, [i]);
    MfaAlone.OneMore(c, s1, req, i, []);
    LoadForEnrollIs(c, s, req, id, i);
    if s1.tasks[req].Done? {
      MfaAlone.StaysDone(c, s1, req, [i]);
    } else {
      StorePendingIs(c, s1, req, id, i);
    }
  }

  lemma LoadForEnrollIs(c: Crypto, s: State, req: Req, id: Id, i: Input)
    requires req in s.tasks && s.tasks[req] == LoadForEnroll(id)
    ensures var s' := Next(c, s, Run(req, i));
            var next := if id in s.db.identities && !s.db.identities[id].mfaEnabled then StorePending(id) else Task.Done;
            MfaAlone.Moved(s, s', req, next, s.db, [])
  {
    MfaAlone.StatementIs(c, s, req, i);
    hide Next;
    AppendNil(s.log);
  }

  lemma StorePendingIs(c: Crypto, s: State, req: Req, id: Id, i: Input)
    requires req in s.tasks && s.tasks[req] == StorePending(id)
    ensures Next(c, s, Run(req, i)).db == SetPendingSecret(s.db, id, i.secret)
  {
    hide SetPendingSecret;
    MfaAlone.StatementIs(c, s, req, i);
  }
}
