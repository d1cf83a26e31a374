/** Account linking in `login_oauth` (`src/services/auth.rs`): which identity a provider account
    resolves to, over every run of requests. */
module Oauth {
  import opened Prelude
  import Rsql

  type Id = int

  datatype Identity = Identity(email: Option<string>, active: bool)

  /** A provider account: the provider and the subject it asserts. */
  datatype Account = Account(provider: string, subject: string)

  datatype Profile = Profile(account: Account, email: Option<string>, verified: bool)

  datatype Tables = Tables(identities: map<Id, Identity>, links: map<Account, Id>, members: set<(Id, string)>)

  datatype Refusal = DomainNotAllowed | AccountExists | NoAccount | NotActive | NoMembership | Corrupt

  /** A request with the id the database would give a new identity. `domainOk` is the verdict of
      the tenant's email-domain list. */
  datatype Request =
    | Login(tenant: string, profile: Profile, allowSignup: bool, domainOk: bool, newId: Id)
    | Register(email: Option<string>, newId: Id)
    | SetActive(id: Id, active: bool)

  datatype Answer = Resolved(id: Id) | Refused(why: Refusal)

  datatype Done = Done(t: Tables, answer: Answer)

  predicate SameEmail(a: string, b: string) { Rsql.Lower(a) == Rsql.Lower(b) }

  /** Emails are the same when they differ at most in the case of letters. */
  lemma SameEmailIff(a: string, b: string)
    ensures SameEmail(a, b) <==> |a| == |b| && forall i :: 0 <= i < |a| ==> SameLetter(a[i], b[i])
  {
    hide SameLetter;
    assert |Rsql.Lower(a)| == |a| && |Rsql.Lower(b)| == |b|;
    if |a| == |b| {
      forall i | 0 <= i < |a| ensures Rsql.Lower(a)[i] == Rsql.Lower(b)[i] <==> SameLetter(a[i], b[i]) {
        SameLetterIff(a[i], b[i]);
      }
    }
  }

  predicate SameLetter(x: char, y: char) {
    x == y || exists k :: 0 <= k < 26 && ((x == LETTERS[k] && y == CAPITALS[k]) || (x == CAPITALS[k] && y == LETTERS[k]))
  }

  lemma SameLetterIff(x: char, y: char)
    ensures Rsql.LowerChar(x) == Rsql.LowerChar(y) <==> SameLetter(x, y)
  {
    assert |LETTERS| == 26 && |CAPITALS| == 26;
    hide LETTERS, CAPITALS;
    if Rsql.LowerChar(x) == Rsql.LowerChar(y) && x != y {
      var k := (if 'A' <= x <= 'Z' then x as int else y as int) - 65;
      PairAt(k);
    }
    if k :| 0 <= k < 26 && ((x == LETTERS[k] && y == CAPITALS[k]) || (x == CAPITALS[k] && y == LETTERS[k])) {
      PairAt(k);
    }
  }

  lemma PairAt(k: int)
    requires 0 <= k < 26
    ensures LETTERS[k] as int == 97 + k && CAPITALS[k] as int == 65 + k
  {
  }

  predicate HasEmail(t: Tables, id: Id, email: string) {
    id in t.identities && t.identities[id].email.Some? && SameEmail(t.identities[id].email.value, email)
  }

  predicate EmailTaken(t: Tables, email: string) { exists id :: id in t.identities && HasEmail(t, id, email) }

  predicate ShareEmail(a: Identity, b: Identity) {
    a.email.Some? && b.email.Some? && SameEmail(a.email.value, b.email.value)
  }

  /** The unique index on the lower-cased email. */
  predicate EmailsUnique(t: Tables) {
    forall i, j :: i in t.identities && j in t.identities && ShareEmail(t.identities[i], t.identities[j]) ==> i == j
  }

  predicate LinksOk(t: Tables) { forall a :: a in t.links ==> t.links[a] in t.identities }

  predicate Valid(t: Tables) { EmailsUnique(t) && LinksOk(t) }

  function VerifiedEmail(p: Profile): Option<string> { if p.verified then p.email else None }

  /** `get_by_email`: with unique emails there is only one answer. */
  ghost function ByEmail(t: Tables, email: string): Option<Id> {
    if EmailTaken(t, email) then (var id :| id in t.identities && HasEmail(t, id, email); Some(id)) else None
  }

  /** Which identity an unlinked account gets: an existing one, a new one (with its email), or none. */
  datatype Choice = Existing(id: Id) | New(email: Option<string>) | Nobody(why: Refusal)

  ghost function Choose(t: Tables, p: Profile, allowSignup: bool): Choice {
    var verified := VerifiedEmail(p);
    if verified.Some? && EmailTaken(t, verified.value) then Existing(ByEmail(t, verified.value).value)
    else if p.email.Some? && !p.verified && EmailTaken(t, p.email.value) then Nobody(AccountExists)
    else if !allowSignup then Nobody(NoAccount)
    else New(verified)
  }

  /** After the identity is known: status, then membership. */
  function Enter(t: Tables, tenant: string, id: Id, allowSignup: bool): Done {
    if id !in t.identities then Done(t, Refused(Corrupt))
    else if !t.identities[id].active then Done(t, Refused(NotActive))
    else if (id, tenant) in t.members then Done(t, Resolved(id))
    else if allowSignup then Done(t.(members := t.members + {(id, tenant)}), Resolved(id))
    else Done(t, Refused(NoMembership))
  }

  ghost function LoginSpec(t: Tables, tenant: string, p: Profile, allowSignup: bool, domainOk: bool, newId: Id): Done {
    if !domainOk then Done(t, Refused(DomainNotAllowed))
    else if p.account in t.links then Enter(t, tenant, t.links[p.account], allowSignup)
    else
      match Choose(t, p, allowSignup)
      case Nobody(why) => Done(t, Refused(why))
      case Existing(id) => Enter(t.(links := t.links[p.account := id]), tenant, id, allowSignup)
      case New(email) =>
        if newId in t.identities then Done(t, Refused(Corrupt))
        else
          Enter(t.(identities := t.identities[newId := Identity(email, true)], links := t.links[p.account := newId]),
                tenant, newId, allowSignup)
  }

  /** Sign-up and admin provisioning create an identity unless the unique index refuses. */
  ghost function Handle(t: Tables, r: Request): Done {
    match r
    case Login(tenant, p, allowSignup, domainOk, newId) => LoginSpec(t, tenant, p, allowSignup, domainOk, newId)
    case Register(email, newId) =>
      if newId in t.identities || (email.Some? && EmailTaken(t, email.value)) then Done(t, Refused(AccountExists))
      else Done(t.(identities := t.identities[newId := Identity(email, true)]), Resolved(newId))
    case SetActive(id, active) =>
      if id !in t.identities then Done(t, Refused(NoAccount))
      else Done(t.(identities := t.identities[id := t.identities[id].(active := active)]), Resolved(id))
  }

  ghost function After(t: Tables, rs: seq<Request>): Tables {
    if rs == [] then t else Handle(After(t, rs[..|rs| - 1]), rs[|rs| - 1]).t
  }

  // ---------------------------------------------------------------- the service

  class OauthService {
    var identities: map<Id, Identity>
    var links: map<Account, Id>
    var members: set<(Id, string)>

    ghost function Now(): Tables
      reads this
    {
      Tables(identities, links, members)
    }

    constructor (t: Tables)
      ensures Now() == t
    {
      identities, links, members := t.identities, t.links, t.members;
    }

    method GetByEmail(email: string) returns (r: Option<Id>)
      requires EmailsUnique(Now())
      ensures r == ByEmail(Now(), email)
    {
      r := None;
      if exists id :: id in identities && identities[id].email.Some? && SameEmail(identities[id].email.value, email) {
        var id :| id in identities && identities[id].email.Some? && SameEmail(identities[id].email.value, email);
        assert HasEmail(Now(), id, email);
        r := Some(id);
      }
    }

    method EnterTenant(tenant: string, id: Id, allowSignup: bool) returns (a: Answer)
      modifies this`members
      ensures var d := Enter(old(Now()), tenant, id, allowSignup); Now() == d.t && a == d.answer
    {
      if id !in identities { return Refused(Corrupt); }
      if !identities[id].active { return Refused(NotActive); }
      if (id, tenant) !in members {
        if !allowSignup { return Refused(NoMembership); }
        members := members + {(id, tenant)};
      }
      a := Resolved(id);
    }

    method LoginOauth(tenant: string, p: Profile, allowSignup: bool, domainOk: bool, newId: Id) returns (a: Answer)
      requires Valid(Now())
      modifies this
      ensures var d := LoginSpec(old(Now()), tenant, p, allowSignup, domainOk, newId); Now() == d.t && a == d.answer
    {
      var verified := if p.verified then p.email else None;
      if !domainOk { return Refused(DomainNotAllowed); }
      var id := newId;
      if p.account in links {
        id := links[p.account];
      } else {
        var existing := None;
        if verified.Some? {
          existing := GetByEmail(verified.value);
        }
        if existing.Some? {
          id := existing.value;
        } else {
          if p.email.Some? && !p.verified {
            var taken := GetByEmail(p.email.value);
            if taken.Some? { return Refused(AccountExists); }
          }
          if !allowSignup { return Refused(NoAccount); }
          if newId in identities { return Refused(Corrupt); }
          identities := identities[newId := Identity(verified, true)];
        }
        links := links[p.account := id];
      }
      a := EnterTenant(tenant, id, allowSignup);
    }
  }

  // ---------------------------------------------------------------- invariants of every run

  lemma NewEmailUnique(t: Tables, email: Option<string>, newId: Id)
    requires Valid(t) && newId !in t.identities && (email.Some? ==> !EmailTaken(t, email.value))
    ensures Valid(t.(identities := t.identities[newId := Identity(email, true)]))
  {
    if email.Some? {
      forall i | i in t.identities && t.identities[i].email.Some?
        ensures !SameEmail(t.identities[i].email.value, email.value)
      {
        assert !HasEmail(t, i, email.value);
      }
    }
  }

  /** Validity is kept, and existing links and emails stay. */
  predicate Keeps(t: Tables, t': Tables) {
    && Valid(t')
    && (forall a :: a in t.links ==> a in t'.links && t'.links[a] == t.links[a])
    && (forall i :: i in t.identities ==> i in t'.identities && t'.identities[i].email == t.identities[i].email)
  }

  lemma LinkKeeps(t: Tables, account: Account, id: Id)
    requires Valid(t) && account !in t.links && id in t.identities
    ensures Keeps(t, t.(links := t.links[account := id]))
  {
  }

  lemma EnterKeeps(t: Tables, t': Tables, tenant: string, id: Id, allowSignup: bool)
    requires Keeps(t, t')
    ensures Keeps(t, Enter(t', tenant, id, allowSignup).t)
  {
  }

  lemma LoginKeeps(t: Tables, tenant: string, p: Profile, allowSignup: bool, domainOk: bool, newId: Id)
    requires Valid(t)
    ensures Keeps(t, LoginSpec(t, tenant, p, allowSignup, domainOk, newId).t)
  {
    hide Valid, Enter, EmailTaken;
    if domainOk {
      if p.account in t.links {
        EnterKeeps(t, t, tenant, t.links[p.account], allowSignup);
      } else {
        match Choose(t, p, allowSignup)
        case Nobody(_) =>
        case Existing(id) =>
          LinkKeeps(t, p.account, id);
          EnterKeeps(t, t.(links := t.links[p.account := id]), tenant, id, allowSignup);
        case New(email) =>
          if newId !in t.identities {
            var t1 := t.(identities := t.identities[newId := Identity(email, true)]);
            NewEmailUnique(t, email, newId);
            LinkKeeps(t1, p.account, newId);
            var t2 := t1.(links := t1.links[p.account := newId]);
            EnterKeeps(t, t2, tenant, newId, allowSignup);
          }
      }
    }
  }

  lemma HandleKeeps(t: Tables, r: Request)
    requires Valid(t)
    ensures Keeps(t, Handle(t, r).t)
  {
    hide LoginSpec;
    match r
    case Login(tenant, p, allowSignup, domainOk, newId) => LoginKeeps(t, tenant, p, allowSignup, domainOk, newId);
    case Register(email, newId) =>
      if newId !in t.identities && !(email.Some? && EmailTaken(t, email.value)) {
        NewEmailUnique(t, email, newId);
      }
    case SetActive(_, _) =>
  }

  /** Over every run the emails of identities stay unique ignoring case, an identity's email never
      changes, and a link once made never moves. */
  lemma {:induction false} RunKeeps(t: Tables, rs: seq<Request>)
    requires Valid(t)
    ensures Keeps(t, After(t, rs))
    decreases |rs|
  {
    hide Handle, Valid;
    if rs != [] {
      RunKeeps(t, rs[..|rs| - 1]);
      HandleKeeps(After(t, rs[..|rs| - 1]), rs[|rs| - 1]);
    }
  }

  /** Two logins with one provider account, any requests between them, any emails asserted: they
      resolve to the same identity. */
  lemma SameAccountSameIdentity(t: Tables, rs: seq<Request>, first: Request, second: Request)
    requires Valid(t) && first.Login? && second.Login? && first.profile.account == second.profile.account
    requires Handle(t, first).answer.Resolved?
    requires var t' := After(Handle(t, first).t, rs); Handle(t', second).answer.Resolved?
    ensures var t' := After(Handle(t, first).t, rs); Handle(t', second).answer == Handle(t, first).answer
  {
    hide After, Valid, Choose;
    HandleKeeps(t, first);
    RunKeeps(Handle(t, first).t, rs);
  }

  /** An unlinked account without a verified email never reaches an existing identity: it gets a
      new one without an email, or nothing changes. */
  lemma UnverifiedIsFresh(t: Tables, tenant: string, p: Profile, allowSignup: bool, domainOk: bool, newId: Id)
    requires p.account !in t.links && VerifiedEmail(p).None?
    ensures var d := LoginSpec(t, tenant, p, allowSignup, domainOk, newId);
            && (d.answer.Resolved? ==>
                  && d.answer.id == newId && newId !in t.identities
                  && newId in d.t.identities && d.t.identities[newId].email == None
                  && d.t.links == t.links[p.account := newId])
            && (d.answer.Refused? ==> d.t == t)
            && forall i :: i in t.identities ==> i in d.t.identities && d.t.identities[i] == t.identities[i]
  {
  }

  /** An unlinked account with a verified email resolves to the owner of that email when there is
      one, and otherwise to a new identity holding it. */
  lemma VerifiedFindsOwner(t: Tables, tenant: string, p: Profile, allowSignup: bool, newId: Id)
    requires Valid(t) && p.account !in t.links && VerifiedEmail(p).Some?
    requires LoginSpec(t, tenant, p, allowSignup, true, newId).answer.Resolved?
    ensures var d := LoginSpec(t, tenant, p, allowSignup, true, newId); var email := VerifiedEmail(p).value;
            && HasEmail(d.t, d.answer.id, email)
            && (EmailTaken(t, email) <==> d.answer.id in t.identities)
  {
    if EmailTaken(t, VerifiedEmail(p).value) {
    }
  }

  /** Whoever is let in is active and a member of the tenant; and without sign-up nobody becomes a
      member and no identity appears. */
  lemma ResolvedIsMember(t: Tables, tenant: string, p: Profile, allowSignup: bool, domainOk: bool, newId: Id)
    requires Valid(t)
    ensures var d := LoginSpec(t, tenant, p, allowSignup, domainOk, newId);
            && (d.answer.Resolved? ==>
                  && domainOk && d.answer.id in d.t.identities && d.t.identities[d.answer.id].active
                  && (d.answer.id, tenant) in d.t.members)
            && t.members <= d.t.members <= t.members + (if d.answer.Resolved? then {(d.answer.id, tenant)} else {})
            && (!allowSignup ==> d.t.members == t.members && d.t.identities == t.identities)
  {
  }

  // ---------------------------------------------------------------- who is let in

  /** An existing identity that may enter: active, and a member or allowed to become one. */
  predicate MayEnter(t: Tables, tenant: string, id: Id, allowSignup: bool) {
    id in t.identities && t.identities[id].active && ((id, tenant) in t.members || allowSignup)
  }

  predicate Owned(t: Tables, p: Profile) { p.verified && p.email.Some? && EmailTaken(t, p.email.value) }

  /** A login is accepted exactly, the domain being allowed, for an account linked to an identity that
      may enter; for an unlinked one whose verified email belongs to an identity that may enter; or,
      with sign-up, for an unlinked one whose email, verified or not, belongs to nobody. */
  lemma LoginAcceptedIff(t: Tables, tenant: string, p: Profile, allowSignup: bool, domainOk: bool, newId: Id)
    requires Valid(t) && newId !in t.identities
    ensures LoginSpec(t, tenant, p, allowSignup, domainOk, newId).answer.Resolved? <==>
              domainOk
              && if p.account in t.links then MayEnter(t, tenant, t.links[p.account], allowSignup)
                 else if Owned(t, p) then exists id :: HasEmail(t, id, p.email.value) && MayEnter(t, tenant, id, allowSignup)
                 else allowSignup && (p.email.Some? ==> !EmailTaken(t, p.email.value))
  {
    if Owned(t, p) {
      var owner := ByEmail(t, p.email.value).value;
      assert HasEmail(t, owner, p.email.value);
      forall id | HasEmail(t, id, p.email.value) ensures id == owner {
        OneOwner(t, id, owner, p.email.value);
      }
    }
  }

  lemma OneOwner(t: Tables, a: Id, b: Id, email: string)
    requires Valid(t) && HasEmail(t, a, email) && HasEmail(t, b, email)
    ensures a == b
  {
    assert ShareEmail(t.identities[a], t.identities[b]);
  }

  /** An accepted login leaves the account linked to whom it resolved to, that identity a member, and
      a new identity active with the verified email; nothing else changes. */
  lemma LoginEffect(t: Tables, tenant: string, p: Profile, allowSignup: bool, domainOk: bool, newId: Id)
    requires Valid(t) && LoginSpec(t, tenant, p, allowSignup, domainOk, newId).answer.Resolved?
    ensures var d := LoginSpec(t, tenant, p, allowSignup, domainOk, newId); var id := d.answer.id;
            && d.t.links == t.links[p.account := id] && d.t.members == t.members + {(id, tenant)}
            && d.t.identities == (if id in t.identities then t.identities
                                  else t.identities[newId := Identity(if p.verified then p.email else None, true)])
            && (id !in t.identities ==> id == newId && p.account !in t.links)
  {
  }

  /** A refused one changes nothing but the link of an account whose verified email has an owner. */
  lemma RefusedEffect(t: Tables, tenant: string, p: Profile, allowSignup: bool, domainOk: bool, newId: Id)
    requires Valid(t) && LoginSpec(t, tenant, p, allowSignup, domainOk, newId).answer.Refused?
    ensures var d := LoginSpec(t, tenant, p, allowSignup, domainOk, newId);
            && d.t.members == t.members && d.t.identities == t.identities
            && d.t.links == if domainOk && p.account !in t.links && Owned(t, p) then t.links[p.account := ByEmail(t, p.email.value).value]
                            else t.links
  {
  }

  /** Sign-up elsewhere takes exactly a new id and an email nobody has; turning an identity on or off
      writes that one column. */
  lemma OutsideIs(t: Tables, r: Request)
    ensures r.Register? ==>
              var free := r.newId !in t.identities && forall i :: i in t.identities ==> !(r.email.Some? && HasEmail(t, i, r.email.value));
              && (Handle(t, r).answer.Resolved? <==> free)
              && Handle(t, r).t == if free then t.(identities := t.identities[r.newId := Identity(r.email, true)]) else t
    ensures r.SetActive? ==>
              Handle(t, r).t == if r.id in t.identities then
                                  t.(identities := t.identities[r.id := Identity(t.identities[r.id].email, r.active)])
                                else t
  {
  }
}
