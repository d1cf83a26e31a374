/** What a second factor has to be: when `verify` accepts, said of the submitted text, the stored
    secret and the tables alone, for one call and for every interleaving. */
module MfaVerify {
  import opened Prelude
  import opened Mfa
  import opened MfaInterleaving
  import Rsql

  // ---------------------------------------------------------------- the submitted text

  /** Normalizing works piece by piece: white space and dashes go, letters become lower case. */
  lemma {:induction false} NormalAppend(a: string, b: string)
    ensures NormalizeCode(a + b) == NormalizeCode(a) + NormalizeCode(b)
  {
    if a == "" {
      assert a + b == b;
    } else {
      assert (a + b)[0] == a[0] && (a + b)[1..] == a[1..] + b;
      NormalAppend(a[1..], b);
    }
  }

  lemma NormalOne(c: char)
    ensures NormalizeCode([c]) == if Rsql.White(c) || c == '-' then "" else [Rsql.LowerChar(c)]
  {
    assert [c][1..] == "";
  }

  /** A code written with a dash, as backup codes are handed out, is the code without it. */
  lemma DashDropped(a: string, b: string)
    ensures NormalizeCode(a + "-" + b) == NormalizeCode(a) + NormalizeCode(b)
    ensures NormalizeCode(a + " " + b) == NormalizeCode(a) + NormalizeCode(b)
  {
    NormalOne('-');
    NormalOne(' ');
    NormalAppend(a + "-", b);
    NormalAppend(a, "-");
    NormalAppend(a + " ", b);
    NormalAppend(a, " ");
    AppendNil(NormalizeCode(a));
  }

  /** Digits and lower-case letters are kept as they are. */
  lemma {:induction false} PlainKept(s: string)
    requires forall i :: 0 <= i < |s| ==> '0' <= s[i] <= '9' || 'a' <= s[i] <= 'z'
    ensures NormalizeCode(s) == s
  {
    if s != "" {
      PlainKept(s[1..]);
      HeadTail(s);
    }
  }

  // ---------------------------------------------------------------- one call

  /** What an accepted code spends: the marker moves to its step, or its row is used up; and nothing
      else changes. A refused one changes nothing. */
  lemma VerifySpends(c: Crypto, db: Db, id: Id, row: Identity, raw: string, codeRow: Id, now: nat)
    ensures var (db', ok) := VerifySpec(c, db, id, row, raw, codeRow, now);
            && (!ok ==> db' == db)
            && (ok && |NormalizeCode(raw)| == 6 ==>
                  id in db.identities && row.secret.Some? && exists step: nat ::
                    FirstStep(c, row.secret.value, NormalizeCode(raw), now, step)
                    && db' == db.(identities := db.identities[id := db.identities[id].(lastStep := Some(step))]))
            && (ok && |NormalizeCode(raw)| == 10 ==>
                  codeRow in db.codes && db' == db.(codes := db.codes[codeRow := db.codes[codeRow].(consumed := true)]))
  {
    hide MatchingStep, NormalizeCode;
    if row.secret.Some? {
      StepIs(c, row.secret.value, NormalizeCode(raw), now);
    }
  }

  /** A pending enrollment is confirmed exactly by a right time code, wherever the marker is. */
  lemma ConfirmIff(c: Crypto, row: Identity, raw: string, now: nat, step: nat)
    ensures ConfirmStep(c, row, raw, now) == Some(step) <==>
              && !row.mfaEnabled && row.secret.Some? && SixDigits(NormalizeCode(raw))
              && FirstStep(c, row.secret.value, NormalizeCode(raw), now, step)
  {
    hide MatchingStep, NormalizeCode;
    if row.secret.Some? {
      StepIs(c, row.secret.value, NormalizeCode(raw), now);
    }
  }

  // ---------------------------------------------------------------- every interleaving

  /** The request a number stands for: the first one spawned under it. */
  function Spawned(actions: seq<Action>, req: Req): Option<Task> {
    if actions == [] then None
    else
      var before := Spawned(actions[..|actions| - 1], req);
      var a := actions[|actions| - 1];
      if before.Some? then before else if a.Spawn? && a.req == req && Initial(a.task) then Some(a.task) else None
  }

  /** The code a request came with. */
  function Submitted(actions: seq<Action>, req: Req): Option<string> {
    match Spawned(actions, req)
    case Some(ReadChallenge(_, code)) => Some(code)
    case Some(LoadForManage(_, code, _)) => Some(code)
    case _ => None
  }

  /** The code a request still has to check. */
  function CodeOf(task: Task): Option<string> {
    match task
    case ReadChallenge(_, code) => Some(code)
    case ReadUser(_, code, _) => Some(code)
    case ReadIdentity(_, code, _, _) => Some(code)
    case CheckCode(_, code, _, _, _) => Some(code)
    case LoadForManage(_, code, _) => Some(code)
    case CheckManage(_, _, code, _) => Some(code)
    case _ => None
  }

  /** The identity and row a request is about to check its code against. */
  function RowOf(task: Task): Option<(Id, Identity)> {
    match task
    case CheckCode(_, _, _, m, row) => Some((m.identity, row))
    case CheckManage(id, row, _, _) => Some((id, row))
    case _ => None
  }

  ghost predicate CodesCarried(actions: seq<Action>, s: State) {
    && (forall req :: req in s.tasks <==> Spawned(actions, req).Some?)
    && (forall req :: req in s.tasks && CodeOf(s.tasks[req]).Some? ==> CodeOf(s.tasks[req]) == Submitted(actions, req))
    && (forall req :: req in s.tasks && RowOf(s.tasks[req]).Some? ==>
          Loaded(req, RowOf(s.tasks[req]).value.0, RowOf(s.tasks[req]).value.1) in s.log)
  }

  lemma CodePassedOn(c: Crypto, s: State, task: Task, i: Input)
    ensures var (eff, task') := Program(c, s, task, i);
            && (CodeOf(task').Some? ==> CodeOf(task') == CodeOf(task))
            && (RowOf(task').Some? ==> eff == Load(RowOf(task').value.0, RowOf(task').value.1))
  {
    hide VerifyPlan, StepFresh, CheckGates, ConfirmStep;
  }

  lemma LogExtends(s: State, req: Req, e: Effect)
    ensures s.log <= Do(s, req, e).log && Do(s, req, e).tasks == s.tasks
    ensures e.Load? ==> Loaded(req, e.id, e.row) in Do(s, req, e).log
  {
    hide MarkStep, StepFresh, IncrementAttempts, PurgeChallenges, Enable, Disable, ReplaceCodes, SetPendingSecret;
  }

  lemma {:induction false} CarriedAlways(c: Crypto, actions: seq<Action>)
    ensures CodesCarried(actions, RunAll(c, actions))
    decreases |actions|
  {
    hide Next, CodesCarried;
    if actions == [] {
      CarriedAtStart();
    } else {
      var k := |actions| - 1;
      CarriedAlways(c, actions[..k]);
      CarriedNext(c, actions, RunAll(c, actions[..k]));
    }
  }

  lemma CarriedAtStart()
    ensures CodesCarried([], START)
  {
  }

  lemma SubmittedStays(actions: seq<Action>, req: Req)
    requires actions != []
    ensures var before, a := actions[..|actions| - 1], actions[|actions| - 1];
            && (Spawned(before, req).Some? ==> Spawned(actions, req) == Spawned(before, req) && Submitted(actions, req) == Submitted(before, req))
            && (Spawned(before, req).None? ==>
                  Spawned(actions, req) == if a.Spawn? && a.req == req && Initial(a.task) then Some(a.task) else None)
  {
  }

  lemma RunCarries(c: Crypto, actions: seq<Action>, s: State, req: Req, i: Input)
    requires actions != [] && actions[|actions| - 1] == Run(req, i) && CodesCarried(actions[..|actions| - 1], s) && req in s.tasks
    ensures CodesCarried(actions, Next(c, s, Run(req, i)))
  {
    hide Program, Do, Spawned, Submitted, CodeOf, RowOf;
    var eff := Program(c, s, s.tasks[req], i).0;
    CodePassedOn(c, s, s.tasks[req], i);
    LogExtends(s, req, eff);
    var s' := Next(c, s, Run(req, i));
    assert forall e :: e in s.log ==> e in Do(s, req, eff).log;
    forall q ensures Spawned(actions, q) == Spawned(actions[..|actions| - 1], q)
                     && (Spawned(actions, q).Some? ==> Submitted(actions, q) == Submitted(actions[..|actions| - 1], q)) {
      SubmittedStays(actions, q);
    }
  }

  lemma OtherCarries(actions: seq<Action>, s: State, s': State)
    requires actions != [] && CodesCarried(actions[..|actions| - 1], s) && s'.log == s.log
    requires var a := actions[|actions| - 1];
             s'.tasks == if a.Spawn? && a.req !in s.tasks && Initial(a.task) then s.tasks[a.req := a.task] else s.tasks
    ensures CodesCarried(actions, s')
  {
    var a := actions[|actions| - 1];
    if a.Spawn? && a.req !in s.tasks && Initial(a.task) {
      SpawnedCode(actions, a.req, a.task);
    }
    hide Spawned, Submitted, CodeOf, RowOf, Initial;
    forall q ensures var before := actions[..|actions| - 1];
                     && (Spawned(before, q).Some? ==> Spawned(actions, q) == Spawned(before, q) && Submitted(actions, q) == Submitted(before, q))
                     && (Spawned(before, q).None? ==>
                           Spawned(actions, q) == if a.Spawn? && a.req == q && Initial(a.task) then Some(a.task) else None) {
      SubmittedStays(actions, q);
    }
  }

  lemma SpawnedCode(actions: seq<Action>, req: Req, task: Task)
    requires actions != [] && actions[|actions| - 1] == Spawn(req, task) && Initial(task)
    requires Spawned(actions[..|actions| - 1], req).None?
    ensures CodeOf(task).Some? ==> CodeOf(task) == Submitted(actions, req)
    ensures RowOf(task).None?
  {
  }

  lemma TasksAfter(c: Crypto, s: State, a: Action)
    requires a.Run? ==> a.req !in s.tasks
    ensures Next(c, s, a).log == s.log
    ensures Next(c, s, a).tasks == if a.Spawn? && a.req !in s.tasks && Initial(a.task) then s.tasks[a.req := a.task] else s.tasks
  {
  }

  lemma CarriedNext(c: Crypto, actions: seq<Action>, s: State)
    requires actions != [] && CodesCarried(actions[..|actions| - 1], s)
    ensures CodesCarried(actions, Next(c, s, actions[|actions| - 1]))
  {
    hide *;
    var a := actions[|actions| - 1];
    if a.Run? && a.req in s.tasks {
      RunCarries(c, actions, s, a.req, a.input);
    } else {
      TasksAfter(c, s, a);
      OtherCarries(actions, s, Next(c, s, a));
    }
  }

  /** What made an accepted factor right: the code its request came with, the row that request had
      loaded, and the tables at that moment. */
  ghost predicate FactorRight(c: Crypto, s: State, e: Event, row: Identity, raw: string)
    requires e.Accepted?
  {
    && row.mfaEnabled && Loaded(e.req, e.id, row) in s.log
    && match e.factor
       case TotpStep(id, epoch, step) =>
         && id == e.id && epoch == Epoch(s, id) && SixDigits(NormalizeCode(raw)) && row.secret.Some?
         && FirstStep(c, row.secret.value, NormalizeCode(raw), e.now, step)
         && id in s.db.identities && (s.db.identities[id].lastStep.None? || s.db.identities[id].lastStep.value < step)
       case CodeRow(r) => RowHolds(c, s.db, e.id, raw, r)
  }

  /** The `k`-th action accepted this factor, and rightly. */
  ghost predicate AcceptedAt(c: Crypto, actions: seq<Action>, k: nat, e: Event)
    requires e.Accepted?
  {
    && k < |actions| && actions[k].Run? && actions[k].req == e.req && actions[k].input.now == e.now
    && var s := RunAll(c, actions[..k]);
       Submitted(actions[..k], e.req).Some?
       && exists row :: FactorRight(c, s, e, row, Submitted(actions[..k], e.req).value)
  }

  /** The statement that accepts a factor finds it right. */
  lemma AcceptingIsRight(c: Crypto, s: State, req: Req, task: Task, i: Input)
    requires var eff := Program(c, s, task, i).0; eff.AcceptStep? || eff.SpendCode?
    ensures CodeOf(task).Some? && RowOf(task).Some?
    ensures var eff := Program(c, s, task, i).0; var (id, row) := RowOf(task).value; var n := NormalizeCode(CodeOf(task).value);
            && eff.id == id && eff.now == i.now && row.mfaEnabled
            && (eff.AcceptStep? ==>
                  SixDigits(n) && row.secret.Some? && FirstStep(c, row.secret.value, n, i.now, eff.step) && StepFresh(s.db, id, eff.step))
            && (eff.SpendCode? ==> RowHolds(c, s.db, id, CodeOf(task).value, eff.codeRow))
  {
    hide MatchingStep, NormalizeCode, StepFresh, CheckGates, ConfirmStep;
    if RowOf(task).Some? && RowOf(task).value.1.secret.Some? && CodeOf(task).Some? {
      StepIs(c, RowOf(task).value.1.secret.value, NormalizeCode(CodeOf(task).value), i.now);
    }
  }

  /** What one action adds to the log. */
  lemma NewAccepted(c: Crypto, s: State, req: Req, task: Task, i: Input)
    requires var s' := Do(s, req, Program(c, s, task, i).0); |s'.log| > |s.log| && s'.log[|s.log|].Accepted?
    requires RowOf(task).Some? ==> Loaded(req, RowOf(task).value.0, RowOf(task).value.1) in s.log
    ensures var e := Do(s, req, Program(c, s, task, i).0).log[|s.log|];
            e.req == req && e.now == i.now && CodeOf(task).Some?
            && exists row :: FactorRight(c, s, e, row, CodeOf(task).value)
  {
    hide Program, NormalizeCode, Epoch;
    AcceptsBy(s, req, Program(c, s, task, i).0);
    AcceptingIsRight(c, s, req, task, i);
    var e := Do(s, req, Program(c, s, task, i).0).log[|s.log|];
    hide Do;
    assert FactorRight(c, s, e, RowOf(task).value.1, CodeOf(task).value);
  }

  lemma AcceptsBy(s: State, req: Req, eff: Effect)
    requires |Do(s, req, eff).log| > |s.log| && Do(s, req, eff).log[|s.log|].Accepted?
    ensures eff.AcceptStep? || eff.SpendCode?
    ensures var e := Do(s, req, eff).log[|s.log|];
            e == Accepted(req, eff.id, if eff.AcceptStep? then TotpStep(eff.id, Epoch(s, eff.id), eff.step) else CodeRow(eff.codeRow), eff.now)
  {
    hide MarkStep, StepFresh, IncrementAttempts, PurgeChallenges, Enable, Disable, ReplaceCodes, SetPendingSecret, Epoch;
  }

  /** The action that accepted the last factor of the log. */
  lemma LastAccepted(c: Crypto, actions: seq<Action>)
    requires actions != []
    requires var n := |actions| - 1; var s, s' := RunAll(c, actions[..n]), Next(c, RunAll(c, actions[..n]), actions[n]);
             |s'.log| > |s.log| && s'.log[|s.log|].Accepted?
    ensures var n := |actions| - 1; var s, s' := RunAll(c, actions[..n]), Next(c, RunAll(c, actions[..n]), actions[n]);
            AcceptedAt(c, actions, n, s'.log[|s.log|])
  {
    hide Next, RunAll, FactorRight, CodesCarried, Submitted, CodeOf, RowOf;
    var n := |actions| - 1;
    var s, a := RunAll(c, actions[..n]), actions[n];
    OneEvent(c, s, a);
    CarriedAlways(c, actions[..n]);
    CarriedCode(actions[..n], s, a.req);
    NextIs(c, s, a);
    NewAccepted(c, s, a.req, s.tasks[a.req], a.input);
  }

  lemma RunAllLast(c: Crypto, actions: seq<Action>)
    ensures actions == [] ==> RunAll(c, actions).log == []
    ensures actions != [] ==> RunAll(c, actions) == Next(c, RunAll(c, actions[..|actions| - 1]), actions[|actions| - 1])
  {
    hide Next;
  }

  /** In every interleaving each accepted second factor is right: a time step whose code under the
      secret of the row its request loaded is the code that request came with, or a code row holding
      the hash of that code, unused until then. */
  lemma {:induction false} AcceptedIsRight(c: Crypto, actions: seq<Action>, j: nat) returns (k: nat)
    requires j < |RunAll(c, actions).log| && RunAll(c, actions).log[j].Accepted?
    ensures AcceptedAt(c, actions, k, RunAll(c, actions).log[j])
    decreases |actions|
  {
    hide Next, RunAll, FactorRight, Submitted;
    RunAllLast(c, actions);
    var n := |actions| - 1;
    var s := RunAll(c, actions[..n]);
    OneEvent(c, s, actions[n]);
    if j < |s.log| {
      k := AcceptedIsRight(c, actions[..n], j);
      assert actions[..n][..k] == actions[..k];
    } else {
      k := n;
      LastAccepted(c, actions);
    }
  }

  lemma CarriedCode(actions: seq<Action>, s: State, req: Req)
    requires CodesCarried(actions, s) && req in s.tasks
    ensures CodeOf(s.tasks[req]).Some? ==> CodeOf(s.tasks[req]) == Submitted(actions, req)
    ensures RowOf(s.tasks[req]).Some? ==> Loaded(req, RowOf(s.tasks[req]).value.0, RowOf(s.tasks[req]).value.1) in s.log
  {
  }

  lemma NextIs(c: Crypto, s: State, a: Action)
    requires a.Run? && a.req in s.tasks
    ensures Next(c, s, a).log == Do(s, a.req, Program(c, s, s.tasks[a.req], a.input).0).log
  {
    hide Program, Do;
  }

  lemma OneEvent(c: Crypto, s: State, a: Action)
    ensures s.log <= Next(c, s, a).log && |Next(c, s, a).log| <= |s.log| + 1
    ensures |Next(c, s, a).log| > |s.log| ==> a.Run? && a.req in s.tasks
  {
    hide Program;
    if a.Run? && a.req in s.tasks {
      LogByOne(s, a.req, Program(c, s, s.tasks[a.req], a.input).0);
    }
  }

  lemma LogByOne(s: State, req: Req, e: Effect)
    ensures s.log <= Do(s, req, e).log && |Do(s, req, e).log| <= |s.log| + 1
  {
  }
}
