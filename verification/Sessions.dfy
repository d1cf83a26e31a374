/** The two session stores, `src/repo/sessions_redis.rs` and `src/repo/sessions.rs`, and when they
    are interchangeable. Times are whole seconds. */
module Sessions {
  import opened Prelude

  type Token = string

  datatype User = User(tenant: string, id: int)

  datatype Payload = Payload(user: User, expiresAt: int, data: string)

  /** The user set outlives the session that last touched it by a day. */
  const DAY := 86400

  datatype Op =
    | Set(token: Token, payload: Payload, ttl: nat)
    | Delete(token: Token)
    | DeleteAll(user: User)

  /** An operation and the time at which it runs. */
  datatype Timed = Timed(now: int, op: Op)

  // ---------------------------------------------------------------- Redis

  datatype Key = Key(payload: Payload, expires: int)

  datatype Members = Members(tokens: set<Token>, expires: int)

  datatype Redis = Redis(keys: map<Token, Key>, sets: map<User, Members>)

  function Purge(r: Redis, now: int): Redis {
    Redis(map t | t in r.keys && now < r.keys[t].expires :: r.keys[t],
          map u | u in r.sets && now < r.sets[u].expires :: r.sets[u])
  }

  function TokensOf(r: Redis, u: User): set<Token> { if u in r.sets then r.sets[u].tokens else {} }

  /** One operation after expired keys are gone. A time to live of zero makes SETEX fail. */
  function RedisStep(r0: Redis, c: Timed): Redis {
    var r := Purge(r0, c.now);
    match c.op
    case Set(token, payload, ttl) =>
      if ttl == 0 then r
      else
        Redis(r.keys[token := Key(payload, c.now + ttl)],
              r.sets[payload.user := Members(TokensOf(r, payload.user) + {token}, c.now + ttl + DAY)])
    case Delete(token) => Redis(r.keys - {token}, r.sets)
    case DeleteAll(u) => Redis(r.keys - TokensOf(r, u), r.sets - {u})
  }

  function RedisGet(r: Redis, now: int, token: Token): Option<Payload> {
    if token in r.keys && now < r.keys[token].expires then Some(r.keys[token].payload) else None
  }

  class RedisSessionStore {
    var keys: map<Token, Key>
    var sets: map<User, Members>

    ghost function Contents(): Redis
      reads this
    {
      Redis(keys, sets)
    }

    constructor ()
      ensures Contents() == Redis(map[], map[])
    {
      keys, sets := map[], map[];
    }

    /** Time passes: Redis drops what has expired. */
    method Expire(now: int)
      modifies this
      ensures Contents() == Purge(old(Contents()), now)
    {
      keys := map t | t in keys && now < keys[t].expires :: keys[t];
      sets := map u | u in sets && now < sets[u].expires :: sets[u];
    }

    method Get(now: int, token: Token) returns (p: Option<Payload>)
      ensures p == RedisGet(Contents(), now, token)
    {
      p := if token in keys && now < keys[token].expires then Some(keys[token].payload) else None;
    }

    method SetSession(now: int, token: Token, payload: Payload, ttl: nat) returns (ok: bool)
      modifies this
      ensures Contents() == RedisStep(old(Contents()), Timed(now, Set(token, payload, ttl))) && ok == (ttl != 0)
    {
      Expire(now);
      if ttl == 0 { return false; }
      keys := keys[token := Key(payload, now + ttl)];
      var members := if payload.user in sets then sets[payload.user].tokens else {};
      members := members + {token};
      sets := sets[payload.user := Members(members, now + ttl + DAY)];
      ok := true;
    }

    method DeleteSession(now: int, token: Token) returns (deleted: bool)
      modifies this
      ensures Contents() == RedisStep(old(Contents()), Timed(now, Delete(token)))
      ensures deleted <==> RedisGet(old(Contents()), now, token).Some?
    {
      Expire(now);
      deleted := token in keys;
      keys := keys - {token};
    }

    /** Deletes the members of the user set one by one, then the set. */
    method DeleteAllForUser(now: int, user: User) returns (count: nat)
      modifies this
      ensures Contents() == RedisStep(old(Contents()), Timed(now, DeleteAll(user)))
      ensures count == |TokensOf(Purge(old(Contents()), now), user)|
    {
      Expire(now);
      var tokens := if user in sets then sets[user].tokens else {};
      ghost var before := keys;
      var left := tokens;
      count := 0;
      while left != {}
        invariant left <= tokens && keys == before - (tokens - left) && sets == Purge(old(Contents()), now).sets
        invariant count == |tokens| - |left|
        decreases left
      {
        var token :| token in left;
        keys := keys - {token};
        left := left - {token};
        count := count + 1;
      }
      assert tokens - left == tokens;
      sets := sets - {user};
    }
  }

  // ---------------------------------------------------------------- Postgres

  datatype Row = Row(payload: Payload, revoked: bool)

  type Rows = map<Token, Row>

  function PgStep(rows: Rows, c: Timed): Rows {
    match c.op
    case Set(token, payload, _) => rows[token := Row(payload, false)]
    case Delete(token) => if token in rows then rows[token := rows[token].(revoked := true)] else rows
    case DeleteAll(u) => map t | t in rows :: if rows[t].payload.user == u then rows[t].(revoked := true) else rows[t]
  }

  function PgGet(rows: Rows, now: int, token: Token): Option<Payload> {
    if token in rows && !rows[token].revoked && rows[token].payload.expiresAt > now then Some(rows[token].payload)
    else None
  }

  class PostgresSessionStore {
    var rows: Rows

    constructor ()
      ensures rows == map[]
    {
      rows := map[];
    }

    method Get(now: int, token: Token) returns (p: Option<Payload>)
      ensures p == PgGet(rows, now, token)
    {
      p := None;
      if token in rows && !rows[token].revoked && rows[token].payload.expiresAt > now {
        p := Some(rows[token].payload);
      }
    }

    method SetSession(now: int, token: Token, payload: Payload, ttl: nat)
      modifies this
      ensures rows == PgStep(old(rows), Timed(now, Set(token, payload, ttl)))
    {
      rows := rows[token := Row(payload, false)];
    }

    method RevokeByToken(now: int, token: Token) returns (found: bool)
      modifies this
      ensures rows == PgStep(old(rows), Timed(now, Delete(token))) && found == (token in old(rows))
    {
      found := token in rows;
      if found {
        rows := rows[token := rows[token].(revoked := true)];
      }
    }

    /** Counts every row of the user, revoked before or not. */
    method RevokeAllForUser(now: int, user: User) returns (count: nat)
      modifies this
      ensures rows == PgStep(old(rows), Timed(now, DeleteAll(user)))
      ensures count == |set t | t in old(rows) && old(rows)[t].payload.user == user|
    {
      count := |set t | t in rows && rows[t].payload.user == user|;
      rows := map t | t in rows :: if rows[t].payload.user == user then rows[t].(revoked := true) else rows[t];
    }
  }

  // ---------------------------------------------------------------- runs

  function RedisRun(ops: seq<Timed>): Redis {
    if ops == [] then Redis(map[], map[]) else RedisStep(RedisRun(ops[..|ops| - 1]), ops[|ops| - 1])
  }

  function PgRun(ops: seq<Timed>): Rows {
    if ops == [] then map[] else PgStep(PgRun(ops[..|ops| - 1]), ops[|ops| - 1])
  }

  /** What callers guarantee: the clock does not go back, tokens are fresh, and a session's expiry
      is its creation time plus its time to live. */
  predicate GoodRun(ops: seq<Timed>) {
    && (forall i, j :: 0 <= i < j < |ops| ==> ops[i].now <= ops[j].now)
    && (forall i, j :: 0 <= i < j < |ops| && ops[i].op.Set? && ops[j].op.Set? ==> ops[i].op.token != ops[j].op.token)
    && (forall i :: 0 <= i < |ops| && ops[i].op.Set? ==> ops[i].op.payload.expiresAt == ops[i].now + ops[i].op.ttl)
  }

  /** A user's times to live never differ by more than a day. */
  predicate TtlsClose(ops: seq<Timed>) {
    forall i, j :: 0 <= i < |ops| && 0 <= j < |ops| && ops[i].op.Set? && ops[j].op.Set?
      && ops[i].op.payload.user == ops[j].op.payload.user && ops[j].op.ttl > 0
      ==> ops[i].op.ttl <= ops[j].op.ttl + 86400
  }

  // ---------------------------------------------------------------- the invariant

  /** Every live session key is in its user's set, and the set lives at least as long. */
  predicate KeysCovered(r: Redis) {
    forall t :: t in r.keys ==>
      && r.keys[t].payload.user in r.sets
      && t in r.sets[r.keys[t].payload.user].tokens
      && r.keys[t].expires <= r.sets[r.keys[t].payload.user].expires
  }

  /** The live keys are the unrevoked, unexpired rows, with the same payload. */
  predicate SameSessions(r: Redis, rows: Rows, now: int) {
    && (forall t :: t in r.keys ==>
          t in rows && rows[t].payload == r.keys[t].payload && !rows[t].revoked
          && r.keys[t].expires == rows[t].payload.expiresAt)
    && (forall t :: t in rows && !rows[t].revoked && now < rows[t].payload.expiresAt ==> t in r.keys)
  }

  /** Members of a user set that have a row belong to that user. */
  predicate SetsOwned(r: Redis, rows: Rows) {
    forall u, t :: u in r.sets && t in r.sets[u].tokens ==> t in rows && rows[t].payload.user == u
  }

  /** Every row was written by a Set of the run. */
  predicate RowsFromSets(ops: seq<Timed>, rows: Rows) {
    forall t :: t in rows ==>
      exists i :: 0 <= i < |ops| && ops[i].op.Set? && ops[i].op.token == t && ops[i].op.payload == rows[t].payload
  }

  ghost predicate Inv(ops: seq<Timed>, r: Redis, rows: Rows, now: int) {
    KeysCovered(r) && SameSessions(r, rows, now) && SetsOwned(r, rows) && RowsFromSets(ops, rows)
  }

  lemma PurgeKeeps(ops: seq<Timed>, r: Redis, rows: Rows, before: int, now: int)
    requires Inv(ops, r, rows, before) && before <= now
    ensures Inv(ops, Purge(r, now), rows, now)
  {
    hide RowsFromSets;
  }

  lemma RowsGrow(ops: seq<Timed>, c: Timed, rows: Rows)
    requires RowsFromSets(ops, rows)
    ensures RowsFromSets(ops + [c], PgStep(rows, c))
  {
    var all := ops + [c];
    var rows' := PgStep(rows, c);
    forall t | t in rows'
      ensures exists i :: 0 <= i < |all| && all[i].op.Set? && all[i].op.token == t && all[i].op.payload == rows'[t].payload
    {
      if c.op.Set? && t == c.op.token {
        assert all[|ops|] == c;
      } else {
        var i :| 0 <= i < |ops| && ops[i].op.Set? && ops[i].op.token == t && ops[i].op.payload == rows[t].payload;
        assert all[i] == ops[i];
      }
    }
  }

  /** The refreshed user set still outlives every older session of the user. */
  lemma OlderSessionsCovered(ops: seq<Timed>, c: Timed, r: Redis, rows: Rows, t: Token)
    requires GoodRun(ops + [c]) && TtlsClose(ops + [c]) && Inv(ops, r, rows, c.now)
    requires c.op.Set? && c.op.ttl > 0 && t in r.keys && r.keys[t].payload.user == c.op.payload.user
    ensures r.keys[t].expires <= c.now + c.op.ttl + 86400
  {
    var all := ops + [c];
    var i :| 0 <= i < |ops| && ops[i].op.Set? && ops[i].op.token == t && ops[i].op.payload == rows[t].payload;
    assert all[i] == ops[i] && all[|ops|] == c;
  }

  lemma SetCovers(ops: seq<Timed>, c: Timed, r: Redis, rows: Rows)
    requires GoodRun(ops + [c]) && TtlsClose(ops + [c]) && c.op.Set? && Inv(ops, r, rows, c.now) && r == Purge(r, c.now)
    ensures KeysCovered(RedisStep(r, c))
  {
    hide GoodRun, TtlsClose, RowsFromSets, SameSessions, SetsOwned, Purge;
    if c.op.ttl > 0 {
      forall t | t in r.keys && r.keys[t].payload.user == c.op.payload.user
        ensures r.keys[t].expires <= c.now + c.op.ttl + 86400
      {
        OlderSessionsCovered(ops, c, r, rows, t);
      }
    }
  }

  lemma SetKeeps(ops: seq<Timed>, c: Timed, r: Redis, rows: Rows)
    requires GoodRun(ops + [c]) && c.op.Set? && Inv(ops, r, rows, c.now) && r == Purge(r, c.now)
    ensures SameSessions(RedisStep(r, c), PgStep(rows, c), c.now)
    ensures SetsOwned(RedisStep(r, c), PgStep(rows, c))
  {
    hide GoodRun, RowsFromSets, KeysCovered, Purge;
    FreshToken(ops, c, rows);
    SetExpiry(ops, c);
  }

  lemma SetExpiry(ops: seq<Timed>, c: Timed)
    requires GoodRun(ops + [c]) && c.op.Set?
    ensures c.op.payload.expiresAt == c.now + c.op.ttl
  {
    assert (ops + [c])[|ops|] == c;
  }

  lemma FreshToken(ops: seq<Timed>, c: Timed, rows: Rows)
    requires GoodRun(ops + [c]) && c.op.Set? && RowsFromSets(ops, rows)
    ensures c.op.token !in rows
  {
    var all := ops + [c];
    assert all[|ops|] == c && forall i :: 0 <= i < |ops| ==> all[i] == ops[i];
  }

  lemma RemoveKeeps(c: Timed, r: Redis, rows: Rows)
    requires !c.op.Set? && r == Purge(r, c.now)
    requires KeysCovered(r) && SameSessions(r, rows, c.now) && SetsOwned(r, rows)
    ensures KeysCovered(RedisStep(r, c)) && SameSessions(RedisStep(r, c), PgStep(rows, c), c.now)
    ensures SetsOwned(RedisStep(r, c), PgStep(rows, c))
  {
  }

  lemma PurgeTwice(r: Redis, now: int)
    ensures Purge(Purge(r, now), now) == Purge(r, now)
  {
  }

  lemma StepFromPurged(r: Redis, c: Timed)
    ensures RedisStep(r, c) == RedisStep(Purge(r, c.now), c)
  {
    PurgeTwice(r, c.now);
  }

  lemma PrefixGood(ops: seq<Timed>)
    requires ops != [] && GoodRun(ops) && TtlsClose(ops)
    ensures GoodRun(ops[..|ops| - 1]) && TtlsClose(ops[..|ops| - 1])
    ensures ops == ops[..|ops| - 1] + [ops[|ops| - 1]]
    ensures |ops| > 1 ==> ops[|ops| - 2].now <= ops[|ops| - 1].now
  {
    var p := ops[..|ops| - 1];
    assert forall i :: 0 <= i < |p| ==> p[i] == ops[i];
  }

  lemma {:induction false} InvAlways(ops: seq<Timed>)
    requires ops != [] && GoodRun(ops) && TtlsClose(ops)
    ensures Inv(ops, RedisRun(ops), PgRun(ops), ops[|ops| - 1].now)
    decreases |ops|
  {
    hide GoodRun, TtlsClose, KeysCovered, SameSessions, SetsOwned, RowsFromSets, Purge, RedisStep, PgStep;
    var k := |ops| - 1;
    var before, c := ops[..k], ops[k];
    PrefixGood(ops);
    var r, rows := RedisRun(before), PgRun(before);
    if before == [] {
      EmptyInv(c.now);
    } else {
      InvAlways(before);
      PurgeKeeps(before, r, rows, before[k - 1].now, c.now);
    }
    PurgeTwice(r, c.now);
    StepFromPurged(r, c);
    RowsGrow(before, c, rows);
    if c.op.Set? {
      SetCovers(before, c, Purge(r, c.now), rows);
      SetKeeps(before, c, Purge(r, c.now), rows);
    } else {
      RemoveKeeps(c, Purge(r, c.now), rows);
    }
  }

  lemma EmptyInv(now: int)
    ensures Inv([], Purge(Redis(map[], map[]), now), map[], now)
  {
  }

  /** On every run with fresh tokens whose times to live stay within a day of each other per user,
      the stores answer every `get` alike, then and at any later time. */
  lemma {:induction false} StoresAgree(ops: seq<Timed>, now: int, token: Token)
    requires GoodRun(ops) && TtlsClose(ops) && (ops != [] ==> ops[|ops| - 1].now <= now)
    ensures RedisGet(RedisRun(ops), now, token) == PgGet(PgRun(ops), now, token)
  {
    if ops != [] {
      InvAlways(ops);
    }
  }

  // ---------------------------------------------------------------- the condition is exact

  /** Two sessions of one user, then a revocation just after the user set has expired. */
  function GapRun(a: nat, b: nat): seq<Timed> {
    var u := User("t", 0);
    [Timed(0, Set("first", Payload(u, a, ""), a)), Timed(0, Set("second", Payload(u, b, ""), b)),
     Timed(b + 86400, DeleteAll(u))]
  }

  lemma RunOfThree(ops: seq<Timed>)
    requires |ops| == 3
    ensures RedisRun(ops) == RedisStep(RedisStep(RedisStep(Redis(map[], map[]), ops[0]), ops[1]), ops[2])
    ensures PgRun(ops) == PgStep(PgStep(PgStep(map[], ops[0]), ops[1]), ops[2])
  {
    hide RedisStep, PgStep;
    var two, one := ops[..2], ops[..1];
    assert two[..1] == one && one[..0] == [] && two[1] == ops[1] && one[0] == ops[0];
    assert RedisRun(one) == RedisStep(Redis(map[], map[]), ops[0]) && PgRun(one) == PgStep(map[], ops[0]);
    assert RedisRun(two) == RedisStep(RedisRun(one), ops[1]) && PgRun(two) == PgStep(PgRun(one), ops[1]);
  }

  lemma GapRunGood(a: nat, b: nat)
    ensures GoodRun(GapRun(a, b))
  {
    assert GapRun(a, b)[0].op.token != GapRun(a, b)[1].op.token;
  }

  lemma GapInRedis(a: nat, b: nat)
    requires b > 0 && a > b + 86400
    ensures RedisGet(RedisRun(GapRun(a, b)), b + 86400, "first").Some?
  {
    hide RedisRun;
    var ops := GapRun(a, b);
    RunOfThree(ops);
    var r1 := RedisStep(Redis(map[], map[]), ops[0]);
    assert "first" in r1.keys && r1.keys["first"].expires == a;
    var r2 := RedisStep(r1, ops[1]);
    assert "first" in r2.keys && r2.keys["first"].expires == a && r2.sets[User("t", 0)].expires == b + 86400;
    assert "first" in RedisStep(r2, ops[2]).keys;
  }

  lemma GapInPostgres(a: nat, b: nat)
    ensures PgGet(PgRun(GapRun(a, b)), b + 86400, "first").None?
  {
    hide PgRun, RedisStep;
    var ops := GapRun(a, b);
    RunOfThree(ops);
    var p2 := PgStep(PgStep(map[], ops[0]), ops[1]);
    assert "first" in p2 && p2["first"].payload.user == User("t", 0);
    assert PgStep(p2, ops[2])["first"].revoked;
  }

  /** With times to live more than a day apart a revoked session survives in Redis. */
  lemma GapRunDiffers(a: nat, b: nat)
    requires b > 0 && a > b + 86400
    ensures GoodRun(GapRun(a, b))
    ensures RedisGet(RedisRun(GapRun(a, b)), b + 86400, "first") != PgGet(PgRun(GapRun(a, b)), b + 86400, "first")
  {
    hide *;
    GapRunGood(a, b);
    GapInRedis(a, b);
    GapInPostgres(a, b);
  }

  predicate UsesOnly(ops: seq<Timed>, a: nat, b: nat) {
    forall i :: 0 <= i < |ops| && ops[i].op.Set? ==> ops[i].op.ttl == a || ops[i].op.ttl == b
  }

  ghost predicate AlwaysAgree(a: nat, b: nat) {
    forall ops: seq<Timed>, now, token :: GoodRun(ops) && UsesOnly(ops, a, b) && (ops != [] ==> ops[|ops| - 1].now <= now)
      ==> RedisGet(RedisRun(ops), now, token) == PgGet(PgRun(ops), now, token)
  }

  /** For two positive times to live the stores are interchangeable on all runs exactly when the
      two are within a day of each other. */
  lemma DayIsExact(a: nat, b: nat)
    requires a > 0 && b > 0
    ensures AlwaysAgree(a, b) <==> (a <= b + 86400 && b <= a + 86400)
  {
    hide RedisRun, PgRun, RedisGet, PgGet, GoodRun;
    if a <= b + 86400 && b <= a + 86400 {
      forall ops: seq<Timed>, now, token | GoodRun(ops) && UsesOnly(ops, a, b) && (ops != [] ==> ops[|ops| - 1].now <= now)
        ensures RedisGet(RedisRun(ops), now, token) == PgGet(PgRun(ops), now, token)
      {
        StoresAgree(ops, now, token);
      }
    } else if a > b + 86400 {
      GapRunDiffers(a, b);
      assert UsesOnly(GapRun(a, b), a, b);
    } else {
      GapRunDiffers(b, a);
      assert UsesOnly(GapRun(b, a), a, b);
    }
  }

  // ---------------------------------------------------------------- what get answers

  /** The operation ends the session of this token and user. */
  predicate Ends(op: Op, token: Token, user: User) {
    match op
    case Set(t, _, _) => t == token
    case Delete(t) => t == token
    case DeleteAll(u) => u == user
  }

  /** Operation `i` set this session and no later one replaced or ended it. */
  predicate Stands(ops: seq<Timed>, i: nat, token: Token, p: Payload) {
    && i < |ops| && ops[i].op.Set? && ops[i].op.token == token && ops[i].op.payload == p
    && forall j :: i < j < |ops| ==> !Ends(ops[j].op, token, p.user)
  }

  ghost predicate Standing(ops: seq<Timed>, token: Token, p: Payload) { exists i: nat :: Stands(ops, i, token, p) }

  lemma StandsNext(ops: seq<Timed>, token: Token, p: Payload)
    requires ops != []
    ensures var n := |ops| - 1;
            Standing(ops, token, p) <==>
              || (ops[n].op.Set? && ops[n].op.token == token && ops[n].op.payload == p)
              || (Standing(ops[..n], token, p) && !Ends(ops[n].op, token, p.user))
  {
    hide Ends;
    var n := |ops| - 1;
    var front := ops[..n];
    if i: nat :| Stands(ops, i, token, p) {
      if i < n {
        assert Stands(front, i, token, p);
      }
    }
    if i: nat :| Stands(front, i, token, p) && !Ends(ops[n].op, token, p.user) {
      assert ops[i] == front[i];
      assert Stands(ops, i, token, p);
    }
    if ops[n].op.Set? && ops[n].op.token == token && ops[n].op.payload == p {
      assert Stands(ops, n, token, p);
    }
  }

  lemma {:induction false} RowStands(ops: seq<Timed>, token: Token, p: Payload)
    ensures token in PgRun(ops) && PgRun(ops)[token] == Row(p, false) <==> Standing(ops, token, p)
    decreases |ops|
  {
    hide Stands, Standing;
    if ops == [] {
      NothingStands(token, p);
    } else {
      RowStands(ops[..|ops| - 1], token, p);
      StandsNext(ops, token, p);
    }
  }

  lemma NothingStands(token: Token, p: Payload)
    ensures !Standing([], token, p)
  {
  }

  /** After any operations, `get` answers with a payload exactly when some set of the token with it
      was followed by no other set, no delete and no delete-all of its user, and it has not expired. */
  lemma GetIff(ops: seq<Timed>, now: int, token: Token, p: Payload)
    ensures PgGet(PgRun(ops), now, token) == Some(p) <==> Standing(ops, token, p) && now < p.expiresAt
  {
    hide PgRun, Standing;
    RowStands(ops, token, p);
  }
}
