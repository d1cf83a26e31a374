/** Role requests interleaved at SQL statements: `set_parent` checks for a cycle and updates in two
    statements, and how many of them may be between the two. */
module RoleRace {
  import opened Prelude
  import opened Roles
  import opened RoleNames
  import Rsql

  type Req = int

  /** Where a request is; each point is one statement. */
  datatype Task =
    // set_parent with a parent
    | FindRole(tenant: string, role: Id, parent: Id)
    | FindParent(tenant: string, role: Id, parent: Id)
    | CheckCycle(tenant: string, role: Id, parent: Id)
    | Link(tenant: string, role: Id, parent: Id)
    // create
    | FindUid(tenant: string, name: string, under: Option<Id>)
    | FindCreateParent(tenant: string, name: string, under: Option<Id>)
    | Insert(tenant: string, name: string, under: Option<Id>)
    | Done

  predicate Initial(task: Task) { task.FindRole? || task.FindUid? }

  /** The table, the ids ever used, and the requests. */
  datatype State = State(t: Table, used: set<Id>, tasks: map<Req, Task>)

  datatype Action =
    | Spawn(req: Req, task: Task)
    | Run(req: Req, id: Id)
    // one statement each, after the check that the role is there
    | ClearParent(tenant: string, role: Id)
    | Delete(tenant: string, role: Id)

  /** The statement a request runs: the table and the ids after it, and where the request goes. The
      keys of the table refuse an unknown parent, a used uid and a used id. */
  ghost function Program(t: Table, used: set<Id>, task: Task, id: Id): (Table, set<Id>, Task) {
    match task
    case FindRole(tenant, r, p) => (t, used, if InTenant(t, tenant, r) then FindParent(tenant, r, p) else Done)
    case FindParent(tenant, r, p) => (t, used, if InTenant(t, tenant, p) && p != r then CheckCycle(tenant, r, p) else Done)
    case CheckCycle(tenant, r, p) => (t, used, if ReachesOrIs(t, p, r) then Done else Link(tenant, r, p))
    case Link(tenant, r, p) => (if InTenant(t, tenant, r) && p in t then WithParent(t, r, Some(p)) else t, used, Done)
    case FindUid(tenant, name, parent) =>
      (t, used, if Rsql.Trim(name) == "" || UidUsed(t, tenant, ToUid(Rsql.Trim(name))) then Done else FindCreateParent(tenant, name, parent))
    case FindCreateParent(tenant, name, parent) =>
      (t, used, if parent.Some? && !InTenant(t, tenant, parent.value) then Done else Insert(tenant, name, parent))
    case Insert(tenant, name, parent) =>
      var uid := ToUid(Rsql.Trim(name));
      if id in used || UidUsed(t, tenant, uid) || (parent.Some? && parent.value !in t) then (t, used, Done)
      else (t[id := Role(tenant, Rsql.Trim(name), uid, parent)], used + {id}, Done)
    case Done => (t, used, Done)
  }

  ghost function Next(s: State, a: Action): State {
    match a
    case Spawn(req, task) => if req in s.tasks || !Initial(task) then s else s.(tasks := s.tasks[req := task])
    case Run(req, id) =>
      if req !in s.tasks then s
      else
        var (t, used, task) := Program(s.t, s.used, s.tasks[req], id);
        State(t, used, s.tasks[req := task])
    case ClearParent(tenant, r) => if InTenant(s.t, tenant, r) then s.(t := WithParent(s.t, r, None)) else s
    case Delete(tenant, r) => s.(t := DeleteSpec(s.t, tenant, r))
  }

  const START := State(map[], {}, map[])

  ghost function RunAll(actions: seq<Action>): State {
    if actions == [] then START else Next(RunAll(actions[..|actions| - 1]), actions[|actions| - 1])
  }

  /** The requests between the cycle check and the update. */
  function Linking(s: State): set<Req> { set r | r in s.tasks && s.tasks[r].Link? }

  /** At no time of the run are more than `m` of them. */
  ghost predicate Within(actions: seq<Action>, m: nat) {
    actions == [] || (Within(actions[..|actions| - 1], m) && |Linking(RunAll(actions))| <= m)
  }

  // ---------------------------------------------------------------- the invariant

  /** The id was seen in the tenant; it may have been deleted since, but not given out again. */
  predicate Seen(s: State, tenant: string, x: Id) { x in s.used && (x in s.t ==> s.t[x].tenant == tenant) }

  predicate TaskOk(s: State, task: Task) {
    match task
    case FindParent(tenant, r, p) => Seen(s, tenant, r)
    case CheckCycle(tenant, r, p) => Seen(s, tenant, r) && Seen(s, tenant, p)
    case Link(tenant, r, p) => Seen(s, tenant, r) && Seen(s, tenant, p)
    case Insert(tenant, name, parent) => parent.Some? ==> Seen(s, tenant, parent.value)
    case _ => true
  }

  /** A pending update would not close a cycle. */
  ghost predicate Safe(t: Table, task: Task) {
    task.Link? && task.role in t && task.parent in t ==> !ReachesOrIs(t, task.parent, task.role)
  }

  ghost predicate Inv(s: State) {
    && Forest(s.t) && s.t.Keys <= s.used
    && (forall q :: q in s.tasks ==> TaskOk(s, s.tasks[q]) && Safe(s.t, s.tasks[q]))
  }

  /** The tables a single statement can lead to, as the other requests see them: nobody's tenant
      changes, no id comes back, and no pending update becomes unsafe. */
  ghost predicate Harmless(s: State, s': State) {
    && s.used <= s'.used && s'.t.Keys <= s'.used
    && (forall x :: x in s.used && x in s'.t ==> x in s.t && s'.t[x].tenant == s.t[x].tenant)
    && (forall x, y :: x in s.used && x in s'.t && y in s.used && y in s'.t && ReachesOrIs(s'.t, x, y) ==> ReachesOrIs(s.t, x, y))
  }

  lemma HarmlessTask(s: State, s': State, task: Task)
    requires Harmless(s, s') && TaskOk(s, task) && Safe(s.t, task)
    ensures TaskOk(s', task) && Safe(s'.t, task)
  {
    hide ReachesOrIs;
  }

  lemma FewerIsHarmless(s: State, s': State)
    requires Forest(s.t) && s.t.Keys <= s.used && s'.used == s.used && s'.t.Keys <= s.t.Keys
    requires forall x :: x in s'.t ==> s'.t[x].tenant == s.t[x].tenant
    requires forall r :: Parent(s'.t, r).Some? ==> Parent(s'.t, r) == Parent(s.t, r)
    ensures Harmless(s, s') && Acyclic(s'.t)
  {
    FewerEdges(s.t, s'.t);
    forall x, y | ReachesOrIs(s'.t, x, y) ensures ReachesOrIs(s.t, x, y) {
      var n: nat :| Up(s'.t, x, n) == Some(y);
      WalkInBoth(s.t, s'.t, x, n);
    }
  }

  lemma AddedIsHarmless(s: State, id: Id, row: Role)
    requires Forest(s.t) && s.t.Keys <= s.used && id !in s.used && (row.parent.Some? ==> InTenant(s.t, row.tenant, row.parent.value))
    ensures var s' := s.(t := s.t[id := row], used := s.used + {id}); Harmless(s, s') && Forest(s'.t)
  {
    var t' := s.t[id := row];
    forall r, n: nat | n > 0 ensures Up(t', r, n) != Some(r) {
      if r == id {
        if row.parent.Some? {
          OldWalk(s.t, t', id, row.parent.value, n - 1);
        }
      } else if r in s.t {
        OldWalk(s.t, t', id, r, n);
      }
    }
    forall x, y | x in s.t && ReachesOrIs(t', x, y) ensures ReachesOrIs(s.t, x, y) {
      var n: nat :| Up(t', x, n) == Some(y);
      OldWalk(s.t, t', id, x, n);
    }
  }

  /** After a harmless statement of `req` everything still holds, once `req` is where it should be. */
  lemma MovedOn(s: State, s': State, req: Req)
    requires Inv(s) && Harmless(s, s') && Forest(s'.t) && req in s'.tasks && s'.tasks == s.tasks[req := s'.tasks[req]]
    requires TaskOk(s', s'.tasks[req]) && Safe(s'.t, s'.tasks[req])
    ensures Inv(s')
  {
    hide Harmless, TaskOk, Safe, Forest;
    forall q | q in s'.tasks ensures TaskOk(s', s'.tasks[q]) && Safe(s'.t, s'.tasks[q]) {
      if q != req {
        HarmlessTask(s, s', s.tasks[q]);
      }
    }
    KeysUsed(s, s');
  }

  lemma KeysUsed(s: State, s': State)
    requires Harmless(s, s')
    ensures s'.t.Keys <= s'.used
  {
  }

  lemma Unchanged(s: State, s': State)
    requires s'.t == s.t && s'.used == s.used && s.t.Keys <= s.used
    ensures Harmless(s, s')
  {
  }

  // ---------------------------------------------------------------- statements

  /** Statements that only read. */
  lemma ReadKeeps(s: State, req: Req, id: Id)
    requires Inv(s) && req in s.tasks && !s.tasks[req].Link? && !s.tasks[req].Insert?
    ensures Inv(Next(s, Run(req, id)))
  {
    hide Forest, ReachesOrIs, Rsql.Trim, ToUid, UidUsed;
    Unchanged(s, Next(s, Run(req, id)));
    MovedOn(s, Next(s, Run(req, id)), req);
  }

  lemma InsertKeeps(s: State, req: Req, id: Id)
    requires Inv(s) && req in s.tasks && s.tasks[req].Insert?
    ensures Inv(Next(s, Run(req, id)))
  {
    hide Rsql.Trim, ToUid, UidUsed, Acyclic, ReachesOrIs, EdgesOk;
    var Insert(tenant, name, parent) := s.tasks[req];
    var s' := Next(s, Run(req, id));
    if s'.t == s.t && s'.used == s.used {
      Unchanged(s, s');
    } else {
      AddedIsHarmless(s, id, s'.t[id]);
      assert s'.t == s.t[id := s'.t[id]] && s'.used == s.used + {id};
      SameTables(s, s.(t := s.t[id := s'.t[id]], used := s.used + {id}), s');
    }
    MovedOn(s, s', req);
  }

  lemma SameTables(s: State, a: State, b: State)
    requires Harmless(s, a) && a.t == b.t && a.used == b.used
    ensures Harmless(s, b)
  {
  }

  lemma OnlyOne(a: set<Req>, x: Req, y: Req)
    requires |a| <= 1 && x in a && y in a
    ensures x == y
  {
    var pair := {x, y};
    assert a == pair + (a - pair);
  }

  /** The update, alone between its check and itself. */
  lemma LinkKeeps(s: State, req: Req, id: Id)
    requires Inv(s) && req in s.tasks && s.tasks[req].Link? && |Linking(s)| <= 1
    ensures Inv(Next(s, Run(req, id)))
  {
    hide ReachesOrIs, Acyclic;
    var Link(tenant, r, p) := s.tasks[req];
    var s' := Next(s, Run(req, id));
    if InTenant(s.t, tenant, r) && p in s.t {
      assert Safe(s.t, s.tasks[req]) && TaskOk(s, s.tasks[req]);
      CycleIffAbove(s.t, r, p);
      assert Forest(s'.t);
      forall q | q in s'.tasks ensures TaskOk(s', s'.tasks[q]) && Safe(s'.t, s'.tasks[q]) {
        if q != req {
          assert TaskOk(s, s.tasks[q]);
          if s.tasks[q].Link? {
            OnlyOne(Linking(s), req, q);
          }
        }
      }
    } else {
      Unchanged(s, s');
      MovedOn(s, s', req);
    }
  }

  lemma OutsideKeeps(s: State, a: Action)
    requires Inv(s) && !a.Run?
    ensures Inv(Next(s, a))
  {
    var s' := Next(s, a);
    if a.Spawn? {
      hide Forest, ReachesOrIs;
    } else {
      FewerIsHarmless(s, s');
      hide Harmless, Acyclic, Safe, TaskOk;
      forall q | q in s'.tasks ensures TaskOk(s', s'.tasks[q]) && Safe(s'.t, s'.tasks[q]) {
        HarmlessTask(s, s', s.tasks[q]);
      }
    }
  }

  lemma {:induction false} InvAlways(actions: seq<Action>, m: nat)
    requires Within(actions, m) && m <= 1
    ensures Inv(RunAll(actions)) && |Linking(RunAll(actions))| <= 1
    decreases |actions|
  {
    hide Inv, Next, Linking;
    if actions == [] {
      AtStart();
    } else {
      var k := |actions| - 1;
      InvAlways(actions[..k], m);
      NextKeeps(RunAll(actions[..k]), actions[k]);
    }
  }

  lemma NextKeeps(s: State, a: Action)
    requires Inv(s) && |Linking(s)| <= 1
    ensures Inv(Next(s, a))
  {
    hide Inv, Linking;
    if !a.Run? {
      OutsideKeeps(s, a);
    } else if a.req in s.tasks {
      hide Next;
      if s.tasks[a.req].Link? {
        LinkKeeps(s, a.req, a.id);
      } else if s.tasks[a.req].Insert? {
        InsertKeeps(s, a.req, a.id);
      } else {
        ReadKeeps(s, a.req, a.id);
      }
    }
  }

  lemma AtStart()
    ensures Inv(START) && |Linking(START)| <= 1
  {
    assert Linking(START) == {};
  }

  // ---------------------------------------------------------------- two updates at once

  /** Some actions lead here, never with more than two requests between check and update. */
  ghost predicate Reachable(s: State) { exists actions: seq<Action> :: RunAll(actions) == s && Within(actions, 2) }

  lemma FewLinks(s: State)
    requires forall r :: r in s.tasks && s.tasks[r].Link? ==> r == 3 || r == 4
    ensures |Linking(s)| <= 2
  {
    var both: set<Req> := {3, 4};
    forall r | r in Linking(s) ensures r in both {
      assert s.tasks[r].Link?;
    }
    assert both == Linking(s) + (both - Linking(s));
  }

  lemma RunOneMore(actions: seq<Action>, a: Action, m: nat)
    requires Within(actions, m) && |Linking(Next(RunAll(actions), a))| <= m
    ensures RunAll(actions + [a]) == Next(RunAll(actions), a) && Within(actions + [a], m)
  {
    hide Next, Linking;
    var more := actions + [a];
    assert more[..|more| - 1] == actions && more[|more| - 1] == a;
  }

  lemma Step(s: State, a: Action, s': State)
    requires Reachable(s) && Next(s, a) == s' && forall r :: r in s'.tasks && s'.tasks[r].Link? ==> r == 3 || r == 4
    ensures Reachable(s')
  {
    hide Next, Linking, RunAll, Within;
    var actions: seq<Action> :| RunAll(actions) == s && Within(actions, 2);
    FewLinks(s');
    RunOneMore(actions, a, 2);
  }

  lemma NoParentAbove(t: Table, p: Id, r: Id)
    requires Parent(t, p) == None && p != r
    ensures !ReachesOrIs(t, p, r)
  {
    forall n: nat ensures Up(t, p, n) != Some(r) {
    }
  }

  function RoleNamed(name: string, parent: Option<Id>): Role { Role("t", name, name, parent) }

  /** Two roles, the requests that created them, and two more. */
  function Pair(one: Option<Id>, two: Option<Id>, a: Task, b: Task): State {
    State(map[1 := RoleNamed("a", one), 2 := RoleNamed("b", two)], {1, 2}, map[1 := Done, 2 := Done, 3 := a, 4 := b])
  }

  lemma UidsOfLetters()
    ensures Rsql.Trim("a") == "a" && ToUid("a") == "a" && Rsql.Trim("b") == "b" && ToUid("b") == "b"
  {
    assert IsSlug("a") && IsSlug("b");
    SlugIsPlain("a");
    SlugIsPlain("b");
    UidOfSlug("a");
    UidOfSlug("b");
  }

  lemma OneRole()
    ensures Reachable(State(map[1 := RoleNamed("a", None)], {1}, map[1 := Done]))
  {
    hide Rsql.Trim, ToUid, Reachable;
    UidsOfLetters();
    assert Reachable(START) by { Started(); }
    var s1 := State(map[], {}, map[1 := FindUid("t", "a", None)]);
    Step(START, Spawn(1, FindUid("t", "a", None)), s1);
    var s2 := State(map[], {}, map[1 := FindCreateParent("t", "a", None)]);
    assert Next(s1, Run(1, 1)) == s2;
    Step(s1, Run(1, 1), s2);
    var s3 := State(map[], {}, map[1 := Insert("t", "a", None)]);
    assert Next(s2, Run(1, 1)) == s3;
    Step(s2, Run(1, 1), s3);
    var s4 := State(map[1 := RoleNamed("a", None)], {1}, map[1 := Done]);
    assert Next(s3, Run(1, 1)) == s4;
    Step(s3, Run(1, 1), s4);
  }

  lemma Started()
    ensures Reachable(START)
  {
    assert RunAll([]) == START && Within([], 2);
  }

  lemma TwoRoles()
    ensures Reachable(State(map[1 := RoleNamed("a", None), 2 := RoleNamed("b", None)], {1, 2}, map[1 := Done, 2 := Done]))
  {
    hide Rsql.Trim, ToUid, Reachable;
    UidsOfLetters();
    OneRole();
    var t, t' := map[1 := RoleNamed("a", None)], map[1 := RoleNamed("a", None), 2 := RoleNamed("b", None)];
    var s0 := State(t, {1}, map[1 := Done]);
    var s1 := State(t, {1}, map[1 := Done, 2 := FindUid("t", "b", None)]);
    Step(s0, Spawn(2, FindUid("t", "b", None)), s1);
    var s2 := State(t, {1}, map[1 := Done, 2 := FindCreateParent("t", "b", None)]);
    assert Next(s1, Run(2, 2)) == s2;
    Step(s1, Run(2, 2), s2);
    var s3 := State(t, {1}, map[1 := Done, 2 := Insert("t", "b", None)]);
    assert Next(s2, Run(2, 2)) == s3;
    Step(s2, Run(2, 2), s3);
    var s4 := State(t', {1, 2}, map[1 := Done, 2 := Done]);
    assert Next(s3, Run(2, 2)) == s4;
    Step(s3, Run(2, 2), s4);
  }

  /** Both requests have passed the cycle check: each role is a root, so nothing is above it. */
  lemma BothChecked()
    ensures Reachable(Pair(None, None, Link("t", 1, 2), Link("t", 2, 1)))
  {
    hide Reachable, ReachesOrIs;
    TwoRoles();
    var t := map[1 := RoleNamed("a", None), 2 := RoleNamed("b", None)];
    var s0 := State(t, {1, 2}, map[1 := Done, 2 := Done]);
    var find := FindRole("t", 1, 2);
    var s1 := State(t, {1, 2}, map[1 := Done, 2 := Done, 3 := find]);
    Step(s0, Spawn(3, find), s1);
    var s2 := Pair(None, None, find, FindRole("t", 2, 1));
    Step(s1, Spawn(4, FindRole("t", 2, 1)), s2);
    var s3 := Pair(None, None, FindParent("t", 1, 2), FindRole("t", 2, 1));
    Step(s2, Run(3, 0), s3);
    var s4 := Pair(None, None, FindParent("t", 1, 2), FindParent("t", 2, 1));
    Step(s3, Run(4, 0), s4);
    var s5 := Pair(None, None, CheckCycle("t", 1, 2), FindParent("t", 2, 1));
    Step(s4, Run(3, 0), s5);
    var s6 := Pair(None, None, CheckCycle("t", 1, 2), CheckCycle("t", 2, 1));
    Step(s5, Run(4, 0), s6);
    NoParentAbove(t, 2, 1);
    NoParentAbove(t, 1, 2);
    var s7 := Pair(None, None, Link("t", 1, 2), CheckCycle("t", 2, 1));
    Step(s6, Run(3, 0), s7);
    Step(s7, Run(4, 0), Pair(None, None, Link("t", 1, 2), Link("t", 2, 1)));
  }

  /** Then both update, and each role is the other's parent. */
  lemma BothLinked()
    ensures Reachable(Pair(Some(2), Some(1), Done, Done)) && !Acyclic(Pair(Some(2), Some(1), Done, Done).t)
  {
    hide Reachable, ReachesOrIs;
    BothChecked();
    var s0 := Pair(None, None, Link("t", 1, 2), Link("t", 2, 1));
    var s1 := Pair(Some(2), None, Done, Link("t", 2, 1));
    Step(s0, Run(3, 0), s1);
    var s2 := Pair(Some(2), Some(1), Done, Done);
    Step(s1, Run(4, 0), s2);
    assert Up(s2.t, 1, 2) == Some(1) by {
      assert Up(s2.t, 1, 0) == Some(1) && Up(s2.t, 2, 1) == Some(1);
    }
  }

  // ---------------------------------------------------------------- main result

  /** The table is a forest after every run with at most `m` updates pending. */
  ghost predicate StaysForest(m: nat) { forall actions :: Within(actions, m) ==> Forest(RunAll(actions).t) }

  lemma {:induction false} WithinMore(actions: seq<Action>, m: nat)
    requires Within(actions, 2) && m >= 2
    ensures Within(actions, m)
    decreases |actions|
  {
    hide RunAll, Linking;
    if actions != [] {
      WithinMore(actions[..|actions| - 1], m);
    }
  }

  /** In every interleaving of role requests the table stays a forest if and only if at most one
      `set_parent` is between its cycle check and its update. */
  lemma StaysForestIff(m: nat)
    ensures StaysForest(m) <==> m <= 1
  {
    hide Within, RunAll, Acyclic, EdgesOk;
    if m <= 1 {
      forall actions | Within(actions, m) ensures Forest(RunAll(actions).t) {
        InvAlways(actions, m);
      }
    } else {
      BothLinked();
      var actions: seq<Action> :| RunAll(actions) == Pair(Some(2), Some(1), Done, Done) && Within(actions, 2);
      WithinMore(actions, m);
      assert !Forest(RunAll(actions).t);
    }
  }
}
