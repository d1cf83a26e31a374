/** Which documents compile (`src/policy/compiler.rs`): the ids of the emitted policies, read off the
    document. */
module PolicyIds {
  import opened Prelude
  import opened Policy

  function Ids(ps: seq<CedarPolicy>): set<string> { set p | p in ps :: p.id }

  lemma DistinctAppend(a: seq<CedarPolicy>, b: seq<CedarPolicy>)
    ensures IdsDistinct(a + b) <==> IdsDistinct(a) && IdsDistinct(b) && Ids(a) !! Ids(b)
    ensures Ids(a + b) == Ids(a) + Ids(b)
  {
    if IdsDistinct(a + b) {
      forall i, j | 0 <= i < j < |a| ensures a[i].id != a[j].id {
        assert (a + b)[i].id != (a + b)[j].id;
      }
      forall i, j | 0 <= i < |a| && 0 <= j < |b| ensures a[i].id != b[j].id {
        assert (a + b)[i].id != (a + b)[|a| + j].id;
      }
      forall i, j | 0 <= i < j < |b| ensures b[i].id != b[j].id {
        assert (a + b)[|a| + i].id != (a + b)[|a| + j].id;
      }
    }
    if IdsDistinct(a) && IdsDistinct(b) && Ids(a) !! Ids(b) {
      forall i, j | 0 <= i < j < |a + b| ensures (a + b)[i].id != (a + b)[j].id {
        if i < |a| <= j {
          assert a[i].id in Ids(a) && b[j - |a|].id in Ids(b);
        }
      }
    }
  }

  /** Ids are distinct in a concatenation exactly when they are in each part and no two parts share
      one. */
  lemma {:induction false} DistinctFlat<A>(xs: seq<A>, f: A -> seq<CedarPolicy>)
    ensures IdsDistinct(FlatMap(xs, f)) <==>
              && (forall i :: 0 <= i < |xs| ==> IdsDistinct(f(xs[i])))
              && (forall i, j :: 0 <= i < j < |xs| ==> Ids(f(xs[i])) !! Ids(f(xs[j])))
    ensures forall id :: id in Ids(FlatMap(xs, f)) <==> exists i :: 0 <= i < |xs| && id in Ids(f(xs[i]))
  {
    hide IdsDistinct, Ids;
    if xs == [] {
      assert IdsDistinct([]) && Ids([]) == {} by { NoIds(); }
    } else {
      var n := |xs| - 1;
      DistinctFlat(xs[..n], f);
      DistinctAppend(FlatMap(xs[..n], f), f(xs[n]));
      assert forall i :: 0 <= i < n ==> xs[..n][i] == xs[i];
    }
  }

  lemma NoIds()
    ensures IdsDistinct([]) && Ids([]) == {}
  {
  }

  /** The part of a policy's id that the document decides. */
  function KeyText(s: Statement, action: string, resource: string): string { s.sid + "-" + action + "-" + resource }

  lemma IdOfKey(docId: string, s: Statement, action: string, resource: string, s': Statement, action': string, resource': string)
    ensures PolicyId(docId, s, action, resource) == PolicyId(docId, s', action', resource')
            <==> KeyText(s, action, resource) == KeyText(s', action', resource')
  {
    var a, b := PolicyId(docId, s, action, resource), PolicyId(docId, s', action', resource');
    var front := docId + "-";
    assert a == front + KeyText(s, action, resource) && b == front + KeyText(s', action', resource');
    assert a[|front|..] == KeyText(s, action, resource) && b[|front|..] == KeyText(s', action', resource');
  }

  /** The keys a statement writes, by the positions of action and resource. */
  predicate At(s: Statement, i: nat, j: nat) { i < |s.actions| && j < |s.resources| }

  function KeyAt(s: Statement, i: nat, j: nat): string
    requires At(s, i, j)
  {
    KeyText(s, s.actions[i], s.resources[j])
  }

  /** Within a statement no two keys are the same. */
  ghost predicate KeysDiffer(s: Statement) {
    forall i, j, i', j' | At(s, i, j) && At(s, i', j') :: KeyAt(s, i, j) == KeyAt(s, i', j') ==> i == i' && j == j'
  }

  /** No key of one statement is a key of the other. */
  ghost predicate KeysApart(s: Statement, s': Statement) {
    forall i, j, i', j' | At(s, i, j) && At(s', i', j') :: KeyAt(s, i, j) != KeyAt(s', i', j')
  }

  predicate EmitsNothing(s: Statement) { s.principals == [] || s.actions == [] || s.resources == [] }

  /** Read off the document: a statement that emits anything has one principal only, and no key is
      written twice, neither inside a statement nor in two. */
  ghost predicate Compilable(d: Document) {
    && (forall i :: 0 <= i < |d.statements| && !EmitsNothing(d.statements[i]) ==>
          |d.statements[i].principals| == 1 && KeysDiffer(d.statements[i]))
    && (forall i, j :: 0 <= i < j < |d.statements| && !EmitsNothing(d.statements[i]) && !EmitsNothing(d.statements[j]) ==>
          KeysApart(d.statements[i], d.statements[j]))
  }

  /** The id of the policy for the action and resource at these positions. */
  function IdAt(docId: string, s: Statement, i: nat, j: nat): string
    requires At(s, i, j)
  {
    PolicyId(docId, s, s.actions[i], s.resources[j])
  }

  lemma SameIds(docId: string, s: Statement, i: nat, j: nat, s': Statement, i': nat, j': nat)
    requires At(s, i, j) && At(s', i', j')
    ensures IdAt(docId, s, i, j) == IdAt(docId, s', i', j') <==> KeyAt(s, i, j) == KeyAt(s', i', j')
  {
    IdOfKey(docId, s, s.actions[i], s.resources[j], s', s'.actions[i'], s'.resources[j']);
  }

  /** Two actions of a statement, possibly the same, share no key but at one position. */
  ghost predicate RowsApart(s: Statement, i: nat, i': nat) {
    forall j, j' | At(s, i, j) && At(s, i', j') :: KeyAt(s, i, j) == KeyAt(s, i', j') ==> i == i' && j == j'
  }

  lemma KeysByRows(s: Statement)
    ensures KeysDiffer(s) <==> forall i, i' :: 0 <= i <= i' < |s.actions| ==> RowsApart(s, i, i')
  {
    if forall i, i' :: 0 <= i <= i' < |s.actions| ==> RowsApart(s, i, i') {
      forall i: nat, j: nat, i': nat, j': nat | At(s, i, j) && At(s, i', j') && KeyAt(s, i, j) == KeyAt(s, i', j') ensures i == i' && j == j' {
        assert RowsApart(s, if i <= i' then i else i', if i <= i' then i' else i);
      }
    }
  }

  lemma ActionIds(docId: string, s: Statement, principal: string, i: nat)
    requires i < |s.actions|
    ensures var ps := ForAction(docId, s, principal, s.actions[i]);
            && (IdsDistinct(ps) <==> RowsApart(s, i, i))
            && (forall j | At(s, i, j) :: IdAt(docId, s, i, j) in Ids(ps))
            && (forall id | id in Ids(ps) :: exists j :: At(s, i, j) && id == IdAt(docId, s, i, j))
  {
    hide PolicyId, KeyAt;
    var ps := ForAction(docId, s, principal, s.actions[i]);
    forall j: nat | At(s, i, j) ensures ps[j].id == IdAt(docId, s, i, j) && ps[j] in ps {
    }
    forall j: nat, j': nat | At(s, i, j) && At(s, i, j') ensures ps[j].id == ps[j'].id <==> KeyAt(s, i, j) == KeyAt(s, i, j') {
      SameIds(docId, s, i, j, s, i, j');
    }
    forall id | id in Ids(ps) ensures exists j :: At(s, i, j) && id == IdAt(docId, s, i, j) {
      var p :| p in ps && p.id == id;
      var j :| 0 <= j < |ps| && ps[j] == p;
      assert At(s, i, j);
    }
  }

  lemma ActionsApart(docId: string, s: Statement, principal: string, i: nat, i': nat)
    requires i < i' < |s.actions|
    ensures Ids(ForAction(docId, s, principal, s.actions[i])) !! Ids(ForAction(docId, s, principal, s.actions[i']))
            <==> RowsApart(s, i, i')
  {
    hide IdAt, KeyAt, Ids, ForAction, IdsDistinct;
    ActionIds(docId, s, principal, i);
    ActionIds(docId, s, principal, i');
    forall j, j' | At(s, i, j) && At(s, i', j')
      ensures IdAt(docId, s, i, j) == IdAt(docId, s, i', j') <==> KeyAt(s, i, j) == KeyAt(s, i', j')
    {
      SameIds(docId, s, i, j, s, i', j');
    }
  }

  lemma PrincipalIds(docId: string, s: Statement, principal: string)
    ensures var ps := ForPrincipal(docId, s, principal);
            && (IdsDistinct(ps) <==> KeysDiffer(s))
            && (forall i, j | At(s, i, j) :: IdAt(docId, s, i, j) in Ids(ps))
            && (forall id | id in Ids(ps) :: exists i, j :: At(s, i, j) && id == IdAt(docId, s, i, j))
  {
    hide IdAt, IdsDistinct, Ids, ForAction, KeysDiffer, RowsApart;
    DistinctFlat(s.actions, a => ForAction(docId, s, principal, a));
    KeysByRows(s);
    forall i | 0 <= i < |s.actions|
      ensures IdsDistinct(ForAction(docId, s, principal, s.actions[i])) <==> RowsApart(s, i, i)
      ensures forall j | At(s, i, j) :: IdAt(docId, s, i, j) in Ids(ForAction(docId, s, principal, s.actions[i]))
      ensures forall id | id in Ids(ForAction(docId, s, principal, s.actions[i])) :: exists j :: At(s, i, j) && id == IdAt(docId, s, i, j)
    {
      ActionIds(docId, s, principal, i);
    }
    forall i: nat, j: nat | At(s, i, j) ensures IdAt(docId, s, i, j) in Ids(ForPrincipal(docId, s, principal)) {
      assert IdAt(docId, s, i, j) in Ids(ForAction(docId, s, principal, s.actions[i]));
    }
    forall i, i' | 0 <= i < i' < |s.actions|
      ensures Ids(ForAction(docId, s, principal, s.actions[i])) !! Ids(ForAction(docId, s, principal, s.actions[i'])) <==> RowsApart(s, i, i')
    {
      ActionsApart(docId, s, principal, i, i');
    }
  }

  lemma StatementIds(docId: string, s: Statement)
    ensures var ps := ForStatement(docId, s);
            && (IdsDistinct(ps) <==> EmitsNothing(s) || (|s.principals| == 1 && KeysDiffer(s)))
            && (s.principals != [] ==> forall i, j | At(s, i, j) :: IdAt(docId, s, i, j) in Ids(ps))
            && (forall id | id in Ids(ps) :: !EmitsNothing(s) && exists i, j :: At(s, i, j) && id == IdAt(docId, s, i, j))
  {
    hide IdAt, IdsDistinct, Ids, ForPrincipal, KeysDiffer;
    DistinctFlat(s.principals, p => ForPrincipal(docId, s, p));
    forall p
      ensures IdsDistinct(ForPrincipal(docId, s, p)) <==> KeysDiffer(s)
      ensures forall i, j | At(s, i, j) :: IdAt(docId, s, i, j) in Ids(ForPrincipal(docId, s, p))
      ensures forall id | id in Ids(ForPrincipal(docId, s, p)) :: exists i, j :: At(s, i, j) && id == IdAt(docId, s, i, j)
    {
      PrincipalIds(docId, s, p);
    }
    if s.actions == [] || s.resources == [] {
      NothingDiffers(s);
    } else if |s.principals| >= 2 {
      assert At(s, 0, 0);
      assert !(Ids(ForPrincipal(docId, s, s.principals[0])) !! Ids(ForPrincipal(docId, s, s.principals[1]))) by {
        assert IdAt(docId, s, 0, 0) in Ids(ForPrincipal(docId, s, s.principals[0]));
      }
    }
  }

  lemma NothingDiffers(s: Statement)
    requires s.actions == [] || s.resources == []
    ensures KeysDiffer(s)
  {
  }

  lemma StatementsApart(docId: string, s: Statement, s': Statement)
    ensures Ids(ForStatement(docId, s)) !! Ids(ForStatement(docId, s'))
            <==> EmitsNothing(s) || EmitsNothing(s') || KeysApart(s, s')
  {
    hide IdAt, KeyAt, Ids, ForStatement, IdsDistinct, KeysDiffer;
    StatementIds(docId, s);
    StatementIds(docId, s');
    forall i, j, i', j' | At(s, i, j) && At(s', i', j')
      ensures IdAt(docId, s, i, j) == IdAt(docId, s', i', j') <==> KeyAt(s, i, j) == KeyAt(s', i', j')
    {
      SameIds(docId, s, i, j, s', i', j');
    }
  }

  /** A document compiles exactly when every statement that emits anything has one principal and no
      text `sid-action-resource` is written twice. */
  lemma CompilesIff(d: Document)
    ensures IdsDistinct(ForDocument(d)) <==> Compilable(d)
  {
    hide Ids, ForStatement, IdsDistinct, KeysDiffer, KeysApart, EmitsNothing;
    DistinctFlat(d.statements, s => ForStatement(d.id, s));
    forall i | 0 <= i < |d.statements|
      ensures IdsDistinct(ForStatement(d.id, d.statements[i])) <==>
                EmitsNothing(d.statements[i]) || (|d.statements[i].principals| == 1 && KeysDiffer(d.statements[i]))
    {
      StatementIds(d.id, d.statements[i]);
    }
    forall i, j | 0 <= i < j < |d.statements|
      ensures Ids(ForStatement(d.id, d.statements[i])) !! Ids(ForStatement(d.id, d.statements[j])) <==>
                EmitsNothing(d.statements[i]) || EmitsNothing(d.statements[j]) || KeysApart(d.statements[i], d.statements[j])
    {
      StatementsApart(d.id, d.statements[i], d.statements[j]);
    }
  }

  /** In particular a statement with two principals, an action and a resource never compiles. */
  lemma TwoPrincipalsNeverCompile(d: Document, i: nat)
    requires i < |d.statements| && |d.statements[i].principals| >= 2
    requires d.statements[i].actions != [] && d.statements[i].resources != []
    ensures !IdsDistinct(ForDocument(d))
  {
    hide IdsDistinct, ForDocument, KeysDiffer, KeysApart;
    CompilesIff(d);
  }
}
