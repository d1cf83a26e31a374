/** Guessing second factors while knowing the first: how the clears of the failure counter interact
    with the lockout, and the exact entry points under which the lockout rate survives. */
module Guessing {
  import opened Prelude
  import opened Mfa
  import opened Auth
  import opened Lockout

  // ---------------------------------------------------------------- runs put together

  lemma {:induction false} AfterAppend(k: Checks, t: Tables, a: seq<Request>, b: seq<Request>)
    ensures After(k, t, a + b) == After(k, After(k, t, a), b)
    decreases |b|
  {
    hide Handle;
    if b == [] {
      AppendNil(a);
    } else {
      var n := |b| - 1;
      assert (a + b)[..|a| + n] == a + b[..n] && (a + b)[|a| + n] == b[n];
      AfterAppend(k, t, a, b[..n]);
    }
  }

  lemma {:induction false} FailuresAppend(k: Checks, t: Tables, a: seq<Request>, b: seq<Request>, id: Id)
    ensures Failures(k, t, a + b, id) == Failures(k, t, a, id) + Failures(k, After(k, t, a), b, id)
    decreases |b|
  {
    hide Handle;
    if b == [] {
      AppendNil(a);
    } else {
      var n := |b| - 1;
      assert (a + b)[..|a| + n] == a + b[..n] && (a + b)[|a| + n] == b[n];
      FailuresAppend(k, t, a, b[..n], id);
      AfterAppend(k, t, a, b[..n]);
    }
  }

  /** After no request of the run is the identity locked. */
  predicate NeverLocked(k: Checks, t: Tables, rs: seq<Request>, id: Id) {
    rs == []
    || (NeverLocked(k, t, rs[..|rs| - 1], id)
        && id in After(k, t, rs).db.identities && After(k, t, rs).db.identities[id].lockedUntil == None)
  }

  /** No request of the run completes a second factor of the identity: every guess is wrong. */
  predicate NoRightCode(k: Checks, t: Tables, rs: seq<Request>, id: Id) {
    rs == []
    || (NoRightCode(k, t, rs[..|rs| - 1], id) && !SecondFactor(k, After(k, t, rs[..|rs| - 1]), rs[|rs| - 1], id))
  }

  lemma {:induction false} QuietAppend(k: Checks, t: Tables, a: seq<Request>, b: seq<Request>, id: Id)
    requires NeverLocked(k, t, a, id) && NeverLocked(k, After(k, t, a), b, id)
    requires NoRightCode(k, t, a, id) && NoRightCode(k, After(k, t, a), b, id)
    ensures NeverLocked(k, t, a + b, id) && NoRightCode(k, t, a + b, id)
    decreases |b|
  {
    hide Handle, SecondFactor;
    if b == [] {
      AppendNil(a);
    } else {
      var n := |b| - 1;
      assert (a + b)[..|a| + n] == a + b[..n] && (a + b)[|a| + n] == b[n];
      QuietAppend(k, t, a, b[..n], id);
      AfterAppend(k, t, a, b);
      AfterAppend(k, t, a, b[..n]);
    }
  }

  // ---------------------------------------------------------------- a round

  /** Someone who knows a member's password: the secret of the second factor, and one clock reading
      for everything. */
  datatype Guesser = Guesser(user: Id, id: Id, password: string, secret: Option<string>, at: nat)

  /** The member can sign in up to the second factor. */
  predicate Ready(k: Checks, t: Tables, g: Guesser) {
    && g.user in t.db.users && t.db.users[g.user].identity == g.id && g.id in t.db.identities
    && CheckGates(t.db.users[g.user], t.db.identities[g.id], g.at).None?
    && RightPassword(k, t.db.identities[g.id], g.password)
    && t.db.identities[g.id].mfaEnabled && !t.db.identities[g.id].forceChange && t.db.identities[g.id].secret == g.secret
  }

  /** The code is not one of the secret's at that time, nor the shape of a backup code. */
  predicate WrongCode(k: Checks, g: Guesser, code: string) {
    VerifyPlan(k.crypto, Identity(true, None, false, true, g.secret, None, 0, None), code, g.at) == Reject
  }

  /** A fresh challenge after `wrong` wrong codes. */
  predicate Armed(k: Checks, t: Tables, g: Guesser, token: Token, wrong: nat) {
    && Ready(k, t, g) && t.db.identities[g.id].lockedUntil == None && t.db.identities[g.id].failed == wrong
    && token in t.db.challenges && t.db.challenges[token] == Challenge(g.user, wrong, g.at + 300)
  }

  /** The first factor again: a password login, or an identity login followed by the selection of
      the tenant. */
  function FirstAgain(g: Guesser, viaPassword: bool, token: Token): seq<Request> {
    if viaPassword then [PasswordLogin(g.user, true, g.password, g.at, g.at, token)]
    else [IdentityLogin(g.id, g.password, g.at, g.at), GatedLogin(g.user, true, g.at, token)]
  }

  function Guess(g: Guesser, token: Token, code: string): Request { MfaLogin(token, code, 0, g.at, g.at) }

  function Guesses(g: Guesser, token: Token, codes: seq<string>): seq<Request> {
    seq(|codes|, i requires 0 <= i < |codes| => Guess(g, token, codes[i]))
  }

  /** The first factor, then four codes. */
  function Round(g: Guesser, viaPassword: bool, token: Token, codes: seq<string>): seq<Request> {
    FirstAgain(g, viaPassword, token) + Guesses(g, token, codes)
  }

  lemma {:induction false} PasswordOpens(k: Checks, t: Tables, g: Guesser, token: Token)
    requires Ready(k, t, g) && token !in t.issued
    ensures var d := Handle(k, t, PasswordLogin(g.user, true, g.password, g.at, g.at, token));
            Armed(k, d.t, g, token, 0) && d.t.issued == t.issued + {token} && d.outcome == MfaRequired(token)
  {
  }

  lemma {:induction false} IdentityClears(k: Checks, t: Tables, g: Guesser)
    requires Ready(k, t, g)
    ensures var d := Handle(k, t, IdentityLogin(g.id, g.password, g.at, g.at));
            && Ready(k, d.t, g) && d.t.db.identities[g.id].lockedUntil == None && d.t.db.identities[g.id].failed == 0
            && d.t.issued == t.issued && d.outcome == SignedIn(g.id)
  {
  }

  lemma {:induction false} GatedOpens(k: Checks, t: Tables, g: Guesser, token: Token)
    requires Ready(k, t, g) && t.db.identities[g.id].lockedUntil == None && t.db.identities[g.id].failed == 0
    requires token !in t.issued
    ensures var d := Handle(k, t, GatedLogin(g.user, true, g.at, token));
            Armed(k, d.t, g, token, 0) && d.t.issued == t.issued + {token} && d.outcome == MfaRequired(token)
  {
  }

  lemma {:induction false} GuessFails(k: Checks, t: Tables, g: Guesser, token: Token, wrong: nat, code: string)
    requires Armed(k, t, g, token, wrong) && wrong < 4 && WrongCode(k, g, code)
    ensures var d := Handle(k, t, Guess(g, token, code));
            Armed(k, d.t, g, token, wrong + 1) && d.t.issued == t.issued && d.outcome == WrongCredential(g.id)
    ensures !SecondFactor(k, t, Guess(g, token, code), g.id)
  {
    hide NormalizeCode;
    var row := t.db.identities[g.id];
    assert VerifyPlan(k.crypto, row, code, g.at) == Reject;
    hide VerifyPlan;
  }

  /** What a run of guesses leaves behind. */
  ghost predicate Guessed(k: Checks, t: Tables, rs: seq<Request>, g: Guesser, wrong: nat) {
    && Failures(k, t, rs, g.id) == Times(wrong, g.at)
    && NeverLocked(k, t, rs, g.id) && NoRightCode(k, t, rs, g.id)
    && Ready(k, After(k, t, rs), g)
  }

  function Times(n: nat, at: nat): seq<nat> { seq(n, _ => at) }

  lemma {:induction false} TimesAdd(a: nat, b: nat, at: nat)
    ensures Times(a, at) + Times(b, at) == Times(a + b, at)
  {
  }

  /** A request that is no guess and leaves the identity unlocked. */
  lemma {:induction false} OneGuessed(k: Checks, t: Tables, g: Guesser, r: Request)
    requires !r.MfaLogin? && !Handle(k, t, r).outcome.WrongCredential?
    requires Ready(k, Handle(k, t, r).t, g) && Handle(k, t, r).t.db.identities[g.id].lockedUntil == None
    ensures After(k, t, [r]) == Handle(k, t, r).t && Guessed(k, t, [r], g, 0)
  {
    hide Handle, CheckGates, RightPassword;
    var rs := [r];
    assert rs[..|rs| - 1] == [] && After(k, t, []) == t;
    assert Failures(k, t, [], g.id) == [] && NeverLocked(k, t, [], g.id) && NoRightCode(k, t, [], g.id);
    assert Failures(k, t, rs, g.id) == Times(0, g.at);
    assert NeverLocked(k, t, rs, g.id) && NoRightCode(k, t, rs, g.id);
  }

  lemma {:induction false} FirstGuessed(k: Checks, t: Tables, g: Guesser, viaPassword: bool, token: Token)
    requires Ready(k, t, g) && token !in t.issued
    ensures var rs := FirstAgain(g, viaPassword, token); var t' := After(k, t, rs);
            Guessed(k, t, rs, g, 0) && Armed(k, t', g, token, 0) && t'.issued == t.issued + {token}
  {
    hide Handle, CheckGates, RightPassword, After, Guessed;
    if viaPassword {
      PasswordOpens(k, t, g, token);
      OneGuessed(k, t, g, PasswordLogin(g.user, true, g.password, g.at, g.at, token));
    } else {
      var a, b := IdentityLogin(g.id, g.password, g.at, g.at), GatedLogin(g.user, true, g.at, token);
      IdentityClears(k, t, g);
      OneGuessed(k, t, g, a);
      var t' := Handle(k, t, a).t;
      GatedOpens(k, t', g, token);
      OneGuessed(k, t', g, b);
      assert [a] + [b] == [a, b];
      AfterAppend(k, t, [a], [b]);
      GuessedAppend(k, t, [a], [b], g, 0, 0);
    }
  }

  lemma {:induction false} GuessesFail(k: Checks, t: Tables, g: Guesser, token: Token, codes: seq<string>)
    requires Armed(k, t, g, token, 0) && |codes| <= 4 && forall i :: 0 <= i < |codes| ==> WrongCode(k, g, codes[i])
    ensures var rs := Guesses(g, token, codes);
            Guessed(k, t, rs, g, |codes|) && Armed(k, After(k, t, rs), g, token, |codes|) && After(k, t, rs).issued == t.issued
    decreases |codes|
  {
    hide Handle, CheckGates, RightPassword, WrongCode, SecondFactor;
    var rs := Guesses(g, token, codes);
    if codes != [] {
      var n := |codes| - 1;
      GuessesFail(k, t, g, token, codes[..n]);
      assert rs[..n] == Guesses(g, token, codes[..n]) && rs[n] == Guess(g, token, codes[n]);
      GuessFails(k, After(k, t, rs[..n]), g, token, n, codes[n]);
      assert Times(n, g.at) + [g.at] == Times(n + 1, g.at);
    }
  }

  /** From any tables in which the member can sign in: the first factor and four wrong codes, all at
      one clock reading, count four failures, lock nothing, and leave the member able to sign in. */
  lemma {:induction false} RoundGuessed(k: Checks, t: Tables, g: Guesser, viaPassword: bool, token: Token, codes: seq<string>)
    requires Ready(k, t, g) && token !in t.issued && |codes| == 4 && AllWrong(k, g, codes)
    ensures var rs := Round(g, viaPassword, token, codes);
            Guessed(k, t, rs, g, 4) && After(k, t, rs).issued == t.issued + {token}
  {
    hide Handle, Ready, WrongCode, Failures, After, NeverLocked, NoRightCode, FirstAgain, Guesses;
    var a, b := FirstAgain(g, viaPassword, token), Guesses(g, token, codes);
    FirstGuessed(k, t, g, viaPassword, token);
    var t' := After(k, t, a);
    GuessesFail(k, t', g, token, codes);
    AfterAppend(k, t, a, b);
    GuessedAppend(k, t, a, b, g, 0, 4);
  }

  // ---------------------------------------------------------------- any number of rounds

  function Rounds(g: Guesser, viaPassword: bool, tokens: seq<Token>, codes: seq<string>): seq<Request>
    requires |codes| == 4 * |tokens|
  {
    if tokens == [] then []
    else
      var n := |tokens| - 1;
      Rounds(g, viaPassword, tokens[..n], codes[..4 * n]) + Round(g, viaPassword, tokens[n], codes[4 * n..])
  }

  function Members(tokens: seq<Token>): set<Token> { set x | x in tokens }

  predicate AllFresh(t: Tables, tokens: seq<Token>) {
    && (forall i :: 0 <= i < |tokens| ==> tokens[i] !in t.issued)
    && (forall i, j :: 0 <= i < j < |tokens| ==> tokens[i] != tokens[j])
  }

  predicate AllWrong(k: Checks, g: Guesser, codes: seq<string>) { forall i :: 0 <= i < |codes| ==> WrongCode(k, g, codes[i]) }

  lemma {:induction false} FreshParts(t: Tables, tokens: seq<Token>)
    requires tokens != [] && AllFresh(t, tokens)
    ensures var n := |tokens| - 1;
            && AllFresh(t, tokens[..n]) && tokens[n] !in t.issued + Members(tokens[..n])
            && Members(tokens) == Members(tokens[..n]) + {tokens[n]}
  {
    var n := |tokens| - 1;
    assert tokens == tokens[..n] + [tokens[n]];
  }

  lemma {:induction false} WrongParts(k: Checks, g: Guesser, codes: seq<string>, n: nat)
    requires n <= |codes| && AllWrong(k, g, codes)
    ensures AllWrong(k, g, codes[..n]) && AllWrong(k, g, codes[n..])
  {
    hide WrongCode;
  }

  /** Whoever knows the password can have any list of wrong codes checked at a single moment: with a
      fresh token per four codes the failures are all counted and the identity is never locked. */
  lemma {:induction false} AllCodesChecked(k: Checks, t: Tables, g: Guesser, viaPassword: bool, tokens: seq<Token>, codes: seq<string>)
    requires Ready(k, t, g) && |codes| == 4 * |tokens| && AllWrong(k, g, codes) && AllFresh(t, tokens)
    ensures var rs := Rounds(g, viaPassword, tokens, codes);
            Guessed(k, t, rs, g, |codes|) && After(k, t, rs).issued == t.issued + Members(tokens)
    decreases |tokens|
  {
    hide *;
    RoundsParts(g, viaPassword, tokens, codes);
    if tokens == [] {
      NothingYet(k, t, g, tokens);
    } else {
      var n := |tokens| - 1;
      var a, b := Rounds(g, viaPassword, tokens[..n], codes[..4 * n]), Round(g, viaPassword, tokens[n], codes[4 * n..]);
      FreshParts(t, tokens);
      WrongParts(k, g, codes, 4 * n);
      AllCodesChecked(k, t, g, viaPassword, tokens[..n], codes[..4 * n]);
      var t' := After(k, t, a);
      GuessedReady(k, t, a, g, 4 * n);
      RoundGuessed(k, t', g, viaPassword, tokens[n], codes[4 * n..]);
      AfterAppend(k, t, a, b);
      GuessedAppend(k, t, a, b, g, 4 * n, 4);
    }
  }

  lemma {:induction false} RoundsParts(g: Guesser, viaPassword: bool, tokens: seq<Token>, codes: seq<string>)
    requires |codes| == 4 * |tokens|
    ensures tokens == [] ==> Rounds(g, viaPassword, tokens, codes) == []
    ensures tokens != [] ==>
              var n := |tokens| - 1;
              Rounds(g, viaPassword, tokens, codes)
              == Rounds(g, viaPassword, tokens[..n], codes[..4 * n]) + Round(g, viaPassword, tokens[n], codes[4 * n..])
  {
    hide Round;
  }

  lemma {:induction false} NothingYet(k: Checks, t: Tables, g: Guesser, tokens: seq<Token>)
    requires Ready(k, t, g) && tokens == []
    ensures Guessed(k, t, [], g, 0) && After(k, t, []).issued == t.issued + Members(tokens)
  {
  }

  lemma {:induction false} GuessedReady(k: Checks, t: Tables, rs: seq<Request>, g: Guesser, wrong: nat)
    requires Guessed(k, t, rs, g, wrong)
    ensures Ready(k, After(k, t, rs), g)
  {
  }

  lemma {:induction false} GuessedAppend(k: Checks, t: Tables, a: seq<Request>, b: seq<Request>, g: Guesser, m: nat, n: nat)
    requires Guessed(k, t, a, g, m) && Guessed(k, After(k, t, a), b, g, n)
    ensures Guessed(k, t, a + b, g, m + n)
  {
    hide Handle, Ready, Failures, After, NeverLocked, NoRightCode, Times;
    AfterAppend(k, t, a, b);
    FailuresAppend(k, t, a, b, g.id);
    QuietAppend(k, t, a, b, g.id);
    TimesAdd(m, n, g.at);
  }

  // ---------------------------------------------------------------- the exact entry points

  /** The entry points that check passwords are used only where allowed. */
  predicate Uses(rs: seq<Request>, password: bool, identity: bool) {
    forall i :: 0 <= i < |rs| ==> (rs[i].PasswordLogin? ==> password) && (rs[i].IdentityLogin? ==> identity)
  }

  /** Counted from one, the n-th failure (n > 5) comes at least 15 (n - 5) minutes after the fifth. */
  predicate RateKept(times: seq<nat>) {
    forall j :: 5 <= j < |times| ==> times[j] >= times[4] + 900 * (j + 1 - 5)
  }

  /** The lockout rate holds of all runs of wrong codes through these entry points. */
  ghost predicate RateHolds(k: Checks, password: bool, identity: bool) {
    forall t: Tables, rs: seq<Request>, id: Id ::
      StartsAtZero(t, id) && Uses(rs, password, identity)
      && (forall i :: 0 <= i < |rs| ==> ClockOk(rs[i])) && NoRightCode(k, t, rs, id)
      ==> RateKept(Failures(k, t, rs, id))
  }

  lemma {:induction false} NothingClears(k: Checks, t: Tables, rs: seq<Request>, id: Id)
    requires Uses(rs, false, false) && NoRightCode(k, t, rs, id)
    ensures NoClear(k, t, rs, id)
    decreases |rs|
  {
    hide Handle, SecondFactor;
    if rs != [] {
      var n := |rs| - 1;
      assert forall i :: 0 <= i < n ==> rs[..n][i] == rs[i];
      NothingClears(k, t, rs[..n], id);
    }
  }

  /** Tables with one member whose password and MFA are set. */
  function OneMember(hash: string): Tables {
    Tables(Db(map[1 := Identity(true, Some(hash), false, true, None, None, 0, None)], map[], map[],
              map[2 := Member("t", 1, true, None)]), map[], {})
  }

  lemma {:induction false} BlankIsWrong(k: Checks, g: Guesser)
    ensures WrongCode(k, g, "")
  {
  }

  function Label(i: nat): Token { seq(i, _ => 'x') }

  function Labels(n: nat): seq<Token> { seq(n, i requires 0 <= i => Label(i)) }

  lemma {:induction false} LabelsFresh(t: Tables, n: nat)
    requires t.issued == {}
    ensures AllFresh(t, Labels(n))
  {
    forall i, j | 0 <= i < j < n ensures Labels(n)[i] != Labels(n)[j] {
      assert |Labels(n)[i]| == i && |Labels(n)[j]| == j;
    }
  }

  /** For every n, a run from one fixed state with 4n wrong codes at time zero and no lock ever. */
  lemma {:induction false} AnyNumberOfCodes(k: Checks, hash: string, password: string, viaPassword: bool, n: nat) returns (rs: seq<Request>)
    requires k.password(hash, password)
    ensures Failures(k, OneMember(hash), rs, 1) == Times(4 * n, 0)
    ensures NeverLocked(k, OneMember(hash), rs, 1) && NoRightCode(k, OneMember(hash), rs, 1)
    ensures Uses(rs, viaPassword, !viaPassword) && forall i :: 0 <= i < |rs| ==> ClockOk(rs[i])
  {
    var g := Guesser(2, 1, password, None, 0);
    var t := OneMember(hash);
    var codes := seq(4 * n, _ => "");
    BlankIsWrong(k, g);
    LabelsFresh(t, n);
    assert Ready(k, t, g) && AllWrong(k, g, codes);
    AllCodesChecked(k, t, g, viaPassword, Labels(n), codes);
    rs := Rounds(g, viaPassword, Labels(n), codes);
    RoundsUse(g, viaPassword, Labels(n), codes);
  }

  lemma {:induction false} RoundsUse(g: Guesser, viaPassword: bool, tokens: seq<Token>, codes: seq<string>)
    requires |codes| == 4 * |tokens|
    ensures var rs := Rounds(g, viaPassword, tokens, codes);
            Uses(rs, viaPassword, !viaPassword) && forall i :: 0 <= i < |rs| ==> ClockOk(rs[i])
    decreases |tokens|
  {
    if tokens != [] {
      var n := |tokens| - 1;
      RoundsUse(g, viaPassword, tokens[..n], codes[..4 * n]);
    }
  }

  /** Over all runs of wrong codes, the lockout rate holds if and only if neither the password login
      nor the identity login is open; the other first factors never clear the counter. This is for
      any password check that accepts something. */
  lemma {:induction false} RateHoldsIff(k: Checks, hash: string, word: string, password: bool, identity: bool)
    requires k.password(hash, word)
    ensures RateHolds(k, password, identity) <==> !password && !identity
  {
    if !password && !identity {
      forall t: Tables, rs: seq<Request>, id: Id |
        StartsAtZero(t, id) && Uses(rs, password, identity)
        && (forall i :: 0 <= i < |rs| ==> ClockOk(rs[i])) && NoRightCode(k, t, rs, id)
        ensures RateKept(Failures(k, t, rs, id))
      {
        hide Handle, NoRightCode, NoClear, Failures;
        NothingClears(k, t, rs, id);
        forall j | 5 <= j < |Failures(k, t, rs, id)|
          ensures Failures(k, t, rs, id)[j] >= Failures(k, t, rs, id)[4] + 900 * (j + 1 - 5)
        {
          LockoutRate(k, t, rs, id, j + 1);
        }
      }
    } else {
      hide Failures, NoRightCode, ClockOk;
      var rs := AnyNumberOfCodes(k, hash, word, password, 2);
      assert Uses(rs, password, identity);
      assert !RateKept(Times(8, 0)) by { EightAtOnce(); }
      assert !RateHolds(k, password, identity);
    }
  }

  lemma {:induction false} EightAtOnce()
    ensures !RateKept(Times(8, 0))
  {
    assert Times(8, 0)[5] == 0 && Times(8, 0)[4] == 0;
  }
}
