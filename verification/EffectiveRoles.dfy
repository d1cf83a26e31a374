/** Effective roles of a session: the recursive role queries as least fixpoints, and the merge of
    what a user holds directly with what comes through groups. */
module EffectiveRoles {
  import opened Prelude
  import opened Roles

  /** The seed rows of the recursive query: assigned roles of the tenant. */
  function Seeds(t: Table, tenant: string, held: set<Id>): set<Id> {
    set r | r in held && InTenant(t, tenant, r)
  }

  /** The rows the recursive step joins to a set of roles. */
  function Parents(t: Table, tenant: string, roles: set<Id>): set<Id> {
    set r | r in roles && Parent(t, r).Some? && InTenant(t, tenant, Parent(t, r).value) :: Parent(t, r).value
  }

  ghost predicate Closed(t: Table, tenant: string, roles: set<Id>) { Parents(t, tenant, roles) <= roles }

  /** The least set that contains the seeds and is closed under parent. */
  ghost predicate IsLeast(t: Table, tenant: string, held: set<Id>, roles: set<Id>) {
    && Seeds(t, tenant, held) <= roles
    && Closed(t, tenant, roles)
    && forall s: set<Id> :: Seeds(t, tenant, held) <= s && Closed(t, tenant, s) ==> roles <= s
  }

  lemma LeastIsUnique(t: Table, tenant: string, held: set<Id>, a: set<Id>, b: set<Id>)
    requires IsLeast(t, tenant, held, a) && IsLeast(t, tenant, held, b)
    ensures a == b
  {
    assert a <= b && b <= a;
  }

  /** The recursive query, evaluated as the database does it: add the rows joined to the last
      round until a round adds nothing. It ends on every table, cyclic ones included. */
  method RoleAncestors(t: Table, tenant: string, held: set<Id>) returns (roles: set<Id>)
    ensures IsLeast(t, tenant, held, roles)
    ensures forall r :: r in roles ==> InTenant(t, tenant, r)
  {
    roles := Seeds(t, tenant, held);
    var frontier := roles;
    while frontier != {}
      invariant frontier <= roles <= t.Keys
      invariant Seeds(t, tenant, held) <= roles
      invariant Parents(t, tenant, roles - frontier) <= roles
      invariant forall s: set<Id> :: Seeds(t, tenant, held) <= s && Closed(t, tenant, s) ==> roles <= s
      invariant forall r :: r in roles ==> InTenant(t, tenant, r)
      decreases t.Keys - roles, frontier
    {
      var added := Parents(t, tenant, frontier) - roles;
      forall s: set<Id> | Seeds(t, tenant, held) <= s && Closed(t, tenant, s) ensures roles + added <= s {
        assert roles <= s;
        assert Parents(t, tenant, frontier) <= Parents(t, tenant, s);
      }
      assert Parents(t, tenant, roles) == Parents(t, tenant, roles - frontier) + Parents(t, tenant, frontier);
      assert added != {} ==> exists r :: r in added && r in t.Keys - roles;
      assert (roles + added) - added == roles;
      assert Parents(t, tenant, roles) <= roles + added;
      if added == {} {
        assert roles + added == roles;
      } else {
        var r :| r in added;
        assert r in t.Keys - roles && r !in t.Keys - (roles + added);
      }
      roles := roles + added;
      frontier := added;
    }
    assert roles - frontier == roles;
  }

  /** What the query returns, independent of how it is evaluated. */
  ghost function Closure(t: Table, tenant: string, held: set<Id>): set<Id> {
    set x | x in t.Keys && InTenant(t, tenant, x) && FromSeed(t, tenant, held, x)
  }

  /** `x` is a seed or is reached from one by parent steps. */
  ghost predicate FromSeed(t: Table, tenant: string, held: set<Id>, x: Id) {
    exists r, n: nat :: r in Seeds(t, tenant, held) && Up(t, r, n) == Some(x)
  }

  lemma ClosureHasSeeds(t: Table, tenant: string, held: set<Id>)
    ensures Seeds(t, tenant, held) <= Closure(t, tenant, held)
  {
    forall r | r in Seeds(t, tenant, held) ensures r in Closure(t, tenant, held) {
      assert Up(t, r, 0) == Some(r);
    }
  }

  lemma ClosureIsClosed(t: Table, tenant: string, held: set<Id>)
    ensures Closed(t, tenant, Closure(t, tenant, held))
  {
    var c := Closure(t, tenant, held);
    forall p | p in Parents(t, tenant, c) ensures p in c {
      var x :| x in c && Parent(t, x) == Some(p) && InTenant(t, tenant, p);
      var r, n: nat :| r in Seeds(t, tenant, held) && Up(t, r, n) == Some(x);
      UpAdd(t, r, n, 1);
      assert Up(t, x, 1) == Some(p) by { assert Up(t, p, 0) == Some(p); }
    }
  }

  lemma ClosureIsSmallest(t: Table, tenant: string, held: set<Id>, s: set<Id>)
    requires EdgesOk(t) && Seeds(t, tenant, held) <= s && Closed(t, tenant, s)
    ensures Closure(t, tenant, held) <= s
  {
    hide Closed, EdgesOk;
    forall x | x in Closure(t, tenant, held) ensures x in s {
      var r, n: nat :| r in Seeds(t, tenant, held) && Up(t, r, n) == Some(x);
      WalkStays(t, tenant, s, r, n);
    }
  }

  /** In a table with edges inside tenants the fixpoint is the seeds and all their ancestors. */
  lemma ClosureIsLeast(t: Table, tenant: string, held: set<Id>)
    requires EdgesOk(t)
    ensures IsLeast(t, tenant, held, Closure(t, tenant, held))
  {
    hide Closure, Closed, EdgesOk;
    ClosureHasSeeds(t, tenant, held);
    ClosureIsClosed(t, tenant, held);
    forall s: set<Id> | Seeds(t, tenant, held) <= s && Closed(t, tenant, s) ensures Closure(t, tenant, held) <= s {
      ClosureIsSmallest(t, tenant, held, s);
    }
  }

  lemma {:induction false} WalkStays(t: Table, tenant: string, s: set<Id>, r: Id, n: nat)
    requires EdgesOk(t) && Closed(t, tenant, s) && r in s && InTenant(t, tenant, r) && Up(t, r, n).Some?
    ensures Up(t, r, n).value in s
    decreases n
  {
    if n > 0 {
      var p := Parent(t, r).value;
      assert p in Parents(t, tenant, s);
      WalkStays(t, tenant, s, p, n - 1);
    }
  }

  /** The closure of what is held either way is the union of the closures. */
  lemma ClosureOfUnion(t: Table, tenant: string, a: set<Id>, b: set<Id>)
    ensures Closure(t, tenant, a + b) == Closure(t, tenant, a) + Closure(t, tenant, b)
  {
    forall x | FromSeed(t, tenant, a + b, x) ensures FromSeed(t, tenant, a, x) || FromSeed(t, tenant, b, x) {
      var r, n: nat :| r in Seeds(t, tenant, a + b) && Up(t, r, n) == Some(x);
      assert r in Seeds(t, tenant, a) || r in Seeds(t, tenant, b);
    }
    forall x | FromSeed(t, tenant, a, x) || FromSeed(t, tenant, b, x) ensures FromSeed(t, tenant, a + b, x) {
      if FromSeed(t, tenant, a, x) {
        var r, n: nat :| r in Seeds(t, tenant, a) && Up(t, r, n) == Some(x);
        assert r in Seeds(t, tenant, a + b);
      } else {
        var r, n: nat :| r in Seeds(t, tenant, b) && Up(t, r, n) == Some(x);
        assert r in Seeds(t, tenant, a + b);
      }
    }
  }

  // ---------------------------------------------------------------- dedup_chain

  /** A list showing each element of a set once. */
  predicate Lists<T(==)>(s: seq<T>, elements: set<T>) { Distinct(s) && Elements(s) == elements }

  /** The first occurrences of a list, in order. */
  function Firsts<T(==)>(s: seq<T>): seq<T> {
    if s == [] then []
    else
      var r := Firsts(s[..|s| - 1]);
      if s[|s| - 1] in s[..|s| - 1] then r else r + [s[|s| - 1]]
  }

  lemma {:induction false} FirstsLists<T>(s: seq<T>)
    ensures Lists(Firsts(s), Elements(s))
  {
    if s != [] {
      var k := |s| - 1;
      FirstsLists(s[..k]);
      assert s == s[..k] + [s[k]];
      assert Elements(s) == Elements(s[..k]) + {s[k]};
      var r := Firsts(s[..k]);
      assert forall x :: x in r <==> x in Elements(r);
      assert Elements(r + [s[k]]) == Elements(r) + {s[k]};
    }
  }

  /** A list without repeats keeps its order, at the front of the merge. */
  lemma {:induction false} FirstsKeepFront<T>(a: seq<T>, b: seq<T>)
    requires Distinct(a)
    ensures a <= Firsts(a + b)
    decreases |a| + |b|
  {
    if b != [] {
      var k := |b| - 1;
      assert (a + b)[..|a + b| - 1] == a + b[..k];
      FirstsKeepFront(a, b[..k]);
    } else if a != [] {
      var k := |a| - 1;
      assert a + b == a && a[..k] + [] == a[..k];
      FirstsKeepFront(a[..k], []);
      FirstsLists(a[..k]);
      assert Firsts(a[..k]) == a[..k] by { SameLength(a[..k]); }
      assert a == a[..k] + [a[k]];
    }
  }

  lemma {:induction false} SameLength<T>(a: seq<T>)
    requires Distinct(a)
    ensures Firsts(a) == a
  {
    if a != [] {
      var k := |a| - 1;
      SameLength(a[..k]);
      assert a == a[..k] + [a[k]];
    }
  }

  /** `dedup_chain`: both lists in order, later repeats dropped. */
  method DedupChain<T(==)>(a: seq<T>, b: seq<T>) returns (r: seq<T>)
    ensures r == Firsts(a + b)
    ensures Lists(r, Elements(a) + Elements(b))
    ensures Distinct(a) ==> a <= r
  {
    var chained := a + b;
    var seen: set<T> := {};
    r := [];
    for i := 0 to |chained|
      invariant r == Firsts(chained[..i])
      invariant seen == Elements(chained[..i])
    {
      assert chained[..i + 1][..i] == chained[..i] && chained[..i + 1][i] == chained[i];
      if chained[i] !in seen {
        r := r + [chained[i]];
      }
      seen := seen + {chained[i]};
    }
    assert chained[..|chained|] == chained;
    FirstsLists(chained);
    assert Elements(a + b) == Elements(a) + Elements(b);
    if Distinct(a) {
      FirstsKeepFront(a, b);
    }
  }

  // ---------------------------------------------------------------- the session

  datatype Permission = Permission(tenant: string, name: string)

  function Uids(t: Table, roles: set<Id>): set<string> {
    set r | r in roles && r in t :: t[r].uid
  }

  /** Names of the tenant's permissions attached to any of the roles. */
  function PermissionNames(perms: map<Id, Permission>, attached: set<(Id, Id)>, tenant: string, roles: set<Id>):
    set<string>
  {
    set a | a in attached && a.0 in roles && a.1 in perms && perms[a.1].tenant == tenant :: perms[a.1].name
  }

  /** The order in which the n-th query happens to return a set: any list of it without repeats. */
  ghost predicate Orders(order: (nat, set<string>) -> seq<string>) {
    forall n: nat, s: set<string> :: Lists(order(n, s), s)
  }

  /** One recursive role query and one permission query, for the roles held in one way. */
  method QueryRoles(t: Table, tenant: string, held: set<Id>, perms: map<Id, Permission>, attached: set<(Id, Id)>,
                    order: (nat, set<string>) -> seq<string>, n: nat)
    returns (uids: seq<string>, permissions: seq<string>)
    requires EdgesOk(t) && Orders(order)
    ensures Lists(uids, Uids(t, Closure(t, tenant, held)))
    ensures Lists(permissions, PermissionNames(perms, attached, tenant, Closure(t, tenant, held)))
  {
    hide Closure, IsLeast;
    var roles := RoleAncestors(t, tenant, held);
    ClosureIsLeast(t, tenant, held);
    LeastIsUnique(t, tenant, held, roles, Closure(t, tenant, held));
    uids := order(n, Uids(t, roles));
    permissions := order(n + 1, PermissionNames(perms, attached, tenant, roles));
  }

  /** `do_create_session`: the role and permission lists of a new session are the closure of every
      role the user holds, directly or through a group, and the permissions attached to it; each
      entry appears once, whatever order the queries return. */
  method SessionRoles(t: Table, tenant: string, direct: set<Id>, viaGroups: set<Id>,
                      perms: map<Id, Permission>, attached: set<(Id, Id)>, order: (nat, set<string>) -> seq<string>)
    returns (roles: seq<string>, permissions: seq<string>)
    requires EdgesOk(t) && Orders(order)
    ensures Lists(roles, Uids(t, Closure(t, tenant, direct + viaGroups)))
    ensures Lists(permissions, PermissionNames(perms, attached, tenant, Closure(t, tenant, direct + viaGroups)))
    ensures forall u :: u in roles <==> exists r :: r in Closure(t, tenant, direct + viaGroups) && r in t && t[r].uid == u
    ensures forall n :: n in permissions <==>
              exists a :: a in attached && a.0 in Closure(t, tenant, direct + viaGroups) && a.1 in perms
                          && perms[a.1] == Permission(tenant, n)
  {
    hide Closure, Distinct;
    var directUids, directPerms := QueryRoles(t, tenant, direct, perms, attached, order, 0);
    var groupUids, groupPerms := QueryRoles(t, tenant, viaGroups, perms, attached, order, 2);
    roles := DedupChain(directUids, groupUids);
    permissions := DedupChain(directPerms, groupPerms);
    ClosureOfUnion(t, tenant, direct, viaGroups);
    ghost var a, b := Closure(t, tenant, direct), Closure(t, tenant, viaGroups);
    assert Uids(t, a + b) == Uids(t, a) + Uids(t, b);
    assert PermissionNames(perms, attached, tenant, a + b)
        == PermissionNames(perms, attached, tenant, a) + PermissionNames(perms, attached, tenant, b);
    forall u ensures u in roles <==> u in Uids(t, a + b) {
      assert u in roles <==> u in Elements(roles);
    }
    forall n ensures n in permissions <==> n in PermissionNames(perms, attached, tenant, a + b) {
      assert n in permissions <==> n in Elements(permissions);
    }
  }
}
