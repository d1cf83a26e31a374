/** The two rate limiters of `src/middleware/rate_limit.rs`: they answer alike, and how much they
    let through. */
module RateLimit {
  import opened Prelude

  /** One `check`: the clock reading is part of the call. */
  datatype Call = Call(key: string, limit: nat, window: nat, now: int)

  datatype Window = Window(count: nat, end: int)

  type Store = map<string, Window>

  // ---------------------------------------------------------------- in memory

  function MemCheck(s: Store, c: Call): (r: (Store, bool)) {
    if c.key in s && c.now < s[c.key].end then
      var n := s[c.key].count + 1;
      (s[c.key := Window(n, s[c.key].end)], n <= c.limit)
    else (s[c.key := Window(1, c.now + c.window)], true)
  }

  class InMemoryRateLimit {
    var store: Store

    constructor ()
      ensures store == map[]
    {
      store := map[];
    }

    method Check(key: string, limit: nat, window: nat, now: int) returns (allowed: bool)
      modifies this
      ensures (store, allowed) == MemCheck(old(store), Call(key, limit, window, now))
    {
      if key in store {
        var w := store[key];
        if now >= w.end {
          store := store[key := Window(1, now + window)];
          allowed := true;
        } else {
          store := store[key := Window(w.count + 1, w.end)];
          allowed := w.count + 1 <= limit;
        }
      } else {
        store := store[key := Window(1, now + window)];
        allowed := true;
      }
    }
  }

  // ---------------------------------------------------------------- Redis

  /** Redis drops every key whose time has come before it runs a command. */
  function Purge(s: Store, now: int): Store { map k | k in s && now < s[k].end :: s[k] }

  /** INCR, then EXPIRE when the counter is new. */
  function RedisCheck(s: Store, c: Call): (Store, bool) {
    var live := Purge(s, c.now);
    var n := if c.key in live then live[c.key].count + 1 else 1;
    var end := if c.key in live then live[c.key].end else c.now + c.window;
    (live[c.key := Window(n, end)], n <= c.limit)
  }

  class RedisRateLimit {
    var keys: map<string, nat>
    var expires: map<string, int>

    ghost function Contents(): Store
      reads this
      requires Valid()
    {
      map k | k in keys :: Window(keys[k], expires[k])
    }

    /** Between checks every counter has a time to live. */
    ghost predicate Valid()
      reads this
    {
      keys.Keys == expires.Keys
    }

    constructor ()
      ensures Valid() && Contents() == map[]
    {
      keys, expires := map[], map[];
    }

    method Check(key: string, limit: nat, window: nat, now: int) returns (allowed: bool)
      requires Valid()
      modifies this
      ensures Valid() && (Contents(), allowed) == RedisCheck(old(Contents()), Call(key, limit, window, now))
    {
      ghost var was := Contents();
      ghost var live := Purge(was, now);
      keys := map k | k in keys && now < expires[k] :: keys[k];
      expires := map k | k in expires && now < expires[k] :: expires[k];
      assert Contents() == live;
      var count := if key in keys then keys[key] + 1 else 1;
      keys := keys[key := count];
      if key !in expires {
        expires := expires[key := now + window];
      }
      assert Contents() == live[key := Window(count, expires[key])];
      allowed := count <= limit;
    }
  }

  // ---------------------------------------------------------------- the two agree

  /** The stores after a sequence of calls, and the answers given. */
  function MemRun(calls: seq<Call>): (r: (Store, seq<bool>))
    ensures |r.1| == |calls|
  {
    if calls == [] then (map[], [])
    else
      var (s, answers) := MemRun(calls[..|calls| - 1]);
      var (s', b) := MemCheck(s, calls[|calls| - 1]);
      (s', answers + [b])
  }

  function RedisRun(calls: seq<Call>): (r: (Store, seq<bool>))
    ensures |r.1| == |calls|
  {
    if calls == [] then (map[], [])
    else
      var (s, answers) := RedisRun(calls[..|calls| - 1]);
      var (s', b) := RedisCheck(s, calls[|calls| - 1]);
      (s', answers + [b])
  }

  predicate Monotone(calls: seq<Call>) {
    forall i, j :: 0 <= i < j < |calls| ==> calls[i].now <= calls[j].now
  }

  /** Up to expired entries the stores hold the same windows. */
  predicate Agree(mem: Store, redis: Store, now: int) { Purge(mem, now) == Purge(redis, now) }

  /** The key's window is open at the call. */
  predicate WindowOpen(s: Store, c: Call) { c.key in s && c.now < s[c.key].end }

  /** Whatever the limit, the stores stay the same; the answers are, too, unless a call with limit
      zero finds no open window. */
  lemma AgreeStep(mem: Store, redis: Store, c: Call)
    requires Agree(mem, redis, c.now)
    ensures MemCheck(mem, c).1 == RedisCheck(redis, c).1 <==> c.limit >= 1 || WindowOpen(mem, c)
    ensures Agree(MemCheck(mem, c).0, RedisCheck(redis, c).0, c.now)
  {
    assert WindowOpen(mem, c) <==> c.key in Purge(mem, c.now);
    assert c.key in Purge(redis, c.now) ==> Purge(redis, c.now)[c.key] == Purge(mem, c.now)[c.key];
    var m', r' := MemCheck(mem, c).0, RedisCheck(redis, c).0;
    forall k ensures k in Purge(m', c.now) <==> k in Purge(r', c.now) {
      assert k != c.key ==> (k in Purge(mem, c.now) <==> k in Purge(redis, c.now));
    }
    forall k | k in Purge(m', c.now) && k != c.key ensures Purge(m', c.now)[k] == Purge(r', c.now)[k] {
      assert k in Purge(mem, c.now) && Purge(mem, c.now)[k] == Purge(redis, c.now)[k];
    }
  }

  lemma AgreeLater(mem: Store, redis: Store, now: int, later: int)
    requires Agree(mem, redis, now) && now <= later
    ensures Agree(mem, redis, later)
  {
    assert Purge(mem, later) == Purge(Purge(mem, now), later);
    assert Purge(redis, later) == Purge(Purge(redis, now), later);
  }

  /** When the key's current window ends, read off the calls alone. */
  function WindowEnd(calls: seq<Call>, key: string): Option<int> {
    if calls == [] then None
    else
      var c := calls[|calls| - 1];
      var end := WindowEnd(calls[..|calls| - 1], key);
      if c.key == key && (end.None? || end.value <= c.now) then Some(c.now + c.window) else end
  }

  /** Call `i` opens a window: its key has none yet, or the last one is over. */
  predicate Opens(calls: seq<Call>, i: nat)
    requires i < |calls|
  {
    var end := WindowEnd(calls[..i], calls[i].key);
    end.None? || end.value <= calls[i].now
  }

  /** No call with limit zero opens a window. */
  predicate NoZeroOpens(calls: seq<Call>) { forall i :: 0 <= i < |calls| && Opens(calls, i) ==> calls[i].limit >= 1 }

  lemma {:induction false} WindowEndInStore(calls: seq<Call>, key: string)
    ensures WindowEnd(calls, key) == if key in MemRun(calls).0 then Some(MemRun(calls).0[key].end) else None
  {
    if calls != [] {
      WindowEndInStore(calls[..|calls| - 1], key);
    }
  }

  lemma NoZeroPrefix(calls: seq<Call>)
    requires calls != []
    ensures NoZeroOpens(calls) <==>
              NoZeroOpens(calls[..|calls| - 1]) && (Opens(calls, |calls| - 1) ==> calls[|calls| - 1].limit >= 1)
  {
    var k := |calls| - 1;
    forall i | 0 <= i < k ensures Opens(calls[..k], i) <==> Opens(calls, i) {
      assert calls[..k][..i] == calls[..i];
    }
  }

  lemma {:induction false} AgreeAlways(calls: seq<Call>, now: int)
    requires Monotone(calls) && forall i :: 0 <= i < |calls| ==> calls[i].now <= now
    ensures MemRun(calls).1 == RedisRun(calls).1 <==> NoZeroOpens(calls)
    ensures Agree(MemRun(calls).0, RedisRun(calls).0, now)
    decreases |calls|
  {
    hide WindowEnd, NoZeroOpens, MemCheck, RedisCheck, Agree;
    if calls == [] {
      assert NoZeroOpens(calls) by { NoCalls(calls); }
      assert Agree(map[], map[], now) by { NothingAgrees(now); }
    } else {
      var k := |calls| - 1;
      var c := calls[k];
      AgreeAlways(calls[..k], c.now);
      NoZeroPrefix(calls);
      WindowEndInStore(calls[..k], c.key);
      AgreeStep(MemRun(calls[..k]).0, RedisRun(calls[..k]).0, c);
      AgreeLater(MemRun(calls).0, RedisRun(calls).0, c.now, now);
      SnocEqual(MemRun(calls[..k]).1, RedisRun(calls[..k]).1, MemCheck(MemRun(calls[..k]).0, c).1, RedisCheck(RedisRun(calls[..k]).0, c).1);
    }
  }

  lemma NoCalls(calls: seq<Call>)
    requires calls == []
    ensures NoZeroOpens(calls)
  {
  }

  lemma NothingAgrees(now: int)
    ensures Agree(map[], map[], now)
  {
  }

  lemma SnocEqual(a: seq<bool>, b: seq<bool>, x: bool, y: bool)
    requires |a| == |b|
    ensures a + [x] == b + [y] <==> a == b && x == y
  {
    if a + [x] == b + [y] {
      assert a == (a + [x])[..|a|] && b == (b + [y])[..|b|];
      assert (a + [x])[|a|] == x && (b + [y])[|b|] == y;
    }
  }

  /** On every call sequence with a non-decreasing clock, over any keys and with any windows and
      limits, the two limiters give the same answers exactly when no call with limit zero opens a
      window. */
  lemma {:induction false} SameAnswersIff(calls: seq<Call>)
    requires Monotone(calls)
    ensures MemRun(calls).1 == RedisRun(calls).1 <==> NoZeroOpens(calls)
  {
    hide WindowEnd;
    AgreeAlways(calls, if calls == [] then 0 else calls[|calls| - 1].now);
  }

  /** In particular whenever all limits are at least one. */
  lemma {:induction false} SameAnswers(calls: seq<Call>)
    requires Monotone(calls) && forall i :: 0 <= i < |calls| ==> calls[i].limit >= 1
    ensures MemRun(calls).1 == RedisRun(calls).1
  {
    hide MemRun, RedisRun, Opens;
    SameAnswersIff(calls);
  }

  /** With a limit of zero the first call of all is answered differently: only the in-memory limiter
      lets it pass. */
  lemma ZeroLimitDiffers(key: string, window: nat, now: int)
    ensures MemRun([Call(key, 0, window, now)]).1 != RedisRun([Call(key, 0, window, now)]).1
  {
    var c := Call(key, 0, window, now);
    assert [c][..0] == [];
    assert MemCheck(map[], c).1 && !RedisCheck(map[], c).1;
    assert MemRun([c]).1 == [true] && RedisRun([c]).1 == [false];
  }

  // ---------------------------------------------------------------- one key

  /** A call for the key as it was answered, with the number of the window it fell into. */
  datatype Entry = Entry(time: int, window: nat, allowed: bool)

  /** The windows opened so far for one key, and its answered calls. */
  datatype History = History(starts: seq<int>, entries: seq<Entry>)

  /** A call for the key either falls into the window the store still has open or opens one. */
  function Extend(h: History, s: Store, c: Call): History {
    var starts := if c.key in s && c.now < s[c.key].end then h.starts else h.starts + [c.now];
    History(starts, h.entries + [Entry(c.now, if starts == [] then 0 else |starts| - 1, MemCheck(s, c).1)])
  }

  /** The history of one key in a run. */
  function KeyHistory(calls: seq<Call>, key: string): History {
    if calls == [] then History([], [])
    else
      var h := KeyHistory(calls[..|calls| - 1], key);
      var c := calls[|calls| - 1];
      if c.key != key then h else Extend(h, MemRun(calls[..|calls| - 1]).0, c)
  }

  /** Every call for the key uses this limit and window. */
  predicate Uniform(calls: seq<Call>, key: string, limit: nat, window: nat) {
    forall i :: 0 <= i < |calls| && calls[i].key == key ==> calls[i].limit == limit && calls[i].window == window
  }

  function Min(a: nat, b: nat): nat { if a <= b then a else b }

  function CountWindow(es: seq<Entry>, w: nat): nat {
    if es == [] then 0
    else CountWindow(es[..|es| - 1], w) + (var e := es[|es| - 1]; if e.allowed && e.window == w then 1 else 0)
  }

  /** Allowed calls at times in the half-open interval of `length` from `from`. */
  function CountInterval(es: seq<Entry>, from: int, length: nat): nat {
    if es == [] then 0
    else
      CountInterval(es[..|es| - 1], from, length)
      + (var e := es[|es| - 1]; if e.allowed && from <= e.time < from + length then 1 else 0)
  }

  predicate StartsApart(starts: seq<int>, window: nat) {
    forall i :: 0 < i < |starts| ==> starts[i] >= starts[i - 1] + window
  }

  predicate EntryPlaced(starts: seq<int>, e: Entry, window: nat) {
    && e.window < |starts|
    && starts[e.window] <= e.time
    && (e.time < starts[e.window] + window || (window == 0 && e.time == starts[e.window]))
  }

  predicate EntriesPlaced(h: History, window: nat) {
    forall i :: 0 <= i < |h.entries| ==> EntryPlaced(h.starts, h.entries[i], window)
  }

  ghost predicate CountsBounded(h: History, limit: nat) {
    && (forall w: nat :: w < |h.starts| ==> CountWindow(h.entries, w) <= limit)
    && (forall w: nat :: w >= |h.starts| ==> CountWindow(h.entries, w) == 0)
  }

  /** The store's window is the last of the history, and its counter explains the last count. */
  predicate StoreMatches(s: Store, key: string, h: History, limit: nat, window: nat) {
    if h.starts == [] then key !in s
    else
      var last := |h.starts| - 1;
      && key in s && s[key].end == h.starts[last] + window && s[key].count >= 1
      && CountWindow(h.entries, last) == Min(s[key].count, limit)
  }

  predicate StartedBy(h: History, now: int) { forall i :: 0 <= i < |h.starts| ==> h.starts[i] <= now }

  ghost predicate HistoryOk(s: Store, key: string, h: History, limit: nat, window: nat) {
    && StartsApart(h.starts, window) && EntriesPlaced(h, window) && CountsBounded(h, limit)
    && StoreMatches(s, key, h, limit, window)
  }

  lemma {:induction false} HistoryInvariant(calls: seq<Call>, key: string, limit: nat, window: nat)
    requires limit >= 1 && Monotone(calls) && Uniform(calls, key, limit, window)
    ensures HistoryOk(MemRun(calls).0, key, KeyHistory(calls, key), limit, window)
    ensures calls != [] ==> StartedBy(KeyHistory(calls, key), calls[|calls| - 1].now)
    decreases |calls|
  {
    hide StartsApart, EntriesPlaced, CountsBounded;
    if calls == [] {
      EmptyHistory(limit, window);
    } else {
      var k := |calls| - 1;
      var c := calls[k];
      var h := KeyHistory(calls[..k], key);
      HistoryInvariant(calls[..k], key, limit, window);
      assert StartedBy(h, c.now) by { assert k > 0 ==> calls[..k][k - 1].now <= c.now; }
      var s := MemRun(calls[..k]).0;
      if c.key == key {
        StepStarts(s, h, c);
        StepCounts(s, h, c);
        StepStore(s, h, c);
      }
    }
  }

  lemma EmptyHistory(limit: nat, window: nat)
    ensures var h := History([], []); StartsApart(h.starts, window) && EntriesPlaced(h, window) && CountsBounded(h, limit)
  {
  }

  lemma StepStarts(s: Store, h: History, c: Call)
    requires HistoryOk(s, c.key, h, c.limit, c.window) && StartedBy(h, c.now)
    ensures var h' := Extend(h, s, c);
            StartsApart(h'.starts, c.window) && EntriesPlaced(h', c.window) && StartedBy(h', c.now)
  {
    hide CountsBounded, CountWindow;
    var h' := Extend(h, s, c);
    assert h'.entries == h.entries + [h'.entries[|h.entries|]];
    assert h.starts <= h'.starts;
  }

  lemma AddEntry(es: seq<Entry>, e: Entry, w: nat)
    ensures CountWindow(es + [e], w) == CountWindow(es, w) + if e.allowed && e.window == w then 1 else 0
  {
    assert (es + [e])[..|es|] == es;
  }

  lemma StepCounts(s: Store, h: History, c: Call)
    requires c.limit >= 1 && HistoryOk(s, c.key, h, c.limit, c.window)
    ensures CountsBounded(Extend(h, s, c), c.limit)
  {
    hide CountWindow, EntriesPlaced, StartsApart;
    var h' := Extend(h, s, c);
    var e := h'.entries[|h.entries|];
    forall w: nat ensures CountWindow(h'.entries, w) == CountWindow(h.entries, w) + if e.allowed && e.window == w then 1 else 0 {
      AddEntry(h.entries, e, w);
    }
  }

  lemma StepStore(s: Store, h: History, c: Call)
    requires c.limit >= 1 && HistoryOk(s, c.key, h, c.limit, c.window)
    ensures StoreMatches(MemCheck(s, c).0, c.key, Extend(h, s, c), c.limit, c.window)
  {
    hide CountWindow, EntriesPlaced, StartsApart;
    var h' := Extend(h, s, c);
    AddEntry(h.entries, h'.entries[|h.entries|], |h'.starts| - 1);
  }

  /** No window lets through more than the limit. */
  lemma WindowBound(calls: seq<Call>, key: string, limit: nat, window: nat, w: nat)
    requires limit >= 1 && Monotone(calls) && Uniform(calls, key, limit, window)
    ensures CountWindow(KeyHistory(calls, key).entries, w) <= limit
  {
    HistoryInvariant(calls, key, limit, window);
  }

  lemma {:induction false} StartsGrow(starts: seq<int>, window: nat, i: nat, j: nat)
    requires StartsApart(starts, window) && i <= j < |starts|
    ensures starts[j] >= starts[i] + (if i < j then window else 0)
    decreases j
  {
    if i < j {
      StartsGrow(starts, window, i, j - 1);
    }
  }

  /** Calls two windows apart are more than a window's length apart. */
  lemma TwoWindowsApart(h: History, window: nat, a: nat, b: nat)
    requires StartsApart(h.starts, window) && EntriesPlaced(h, window) && a < |h.entries| && b < |h.entries|
    requires h.entries[b].window >= h.entries[a].window + 2
    ensures h.entries[b].time >= h.entries[a].time + window
  {
    var i, j := h.entries[a].window, h.entries[b].window;
    StartsGrow(h.starts, window, i, i + 1);
    StartsGrow(h.starts, window, i + 1, j);
  }

  predicate InInterval(e: Entry, from: int, length: nat) { from <= e.time < from + length }

  /** If the interval only meets windows `w` and `w + 1`, their counts cover it. */
  lemma {:induction false} TwoWindowsCover(es: seq<Entry>, from: int, length: nat, w: nat)
    requires forall i :: 0 <= i < |es| && InInterval(es[i], from, length) ==> es[i].window == w || es[i].window == w + 1
    ensures CountInterval(es, from, length) <= CountWindow(es, w) + CountWindow(es, w + 1)
  {
    if es != [] {
      TwoWindowsCover(es[..|es| - 1], from, length, w);
    }
  }

  /** The earliest window with a call in the interval. */
  lemma {:induction false} EarliestWindow(es: seq<Entry>, from: int, length: nat) returns (i: nat)
    requires exists i :: 0 <= i < |es| && InInterval(es[i], from, length)
    ensures i < |es| && InInterval(es[i], from, length)
    ensures forall j :: 0 <= j < |es| && InInterval(es[j], from, length) ==> es[i].window <= es[j].window
  {
    i :| 0 <= i < |es| && InInterval(es[i], from, length);
    while exists j :: 0 <= j < |es| && InInterval(es[j], from, length) && es[j].window < es[i].window
      invariant i < |es| && InInterval(es[i], from, length)
      decreases es[i].window
    {
      var j :| 0 <= j < |es| && InInterval(es[j], from, length) && es[j].window < es[i].window;
      i := j;
    }
  }

  /** Any half-open interval as long as the window contains at most twice the limit of allowed
      calls for the key, whatever other keys are called in between. */
  lemma IntervalBound(calls: seq<Call>, key: string, limit: nat, window: nat, from: int)
    requires limit >= 1 && Monotone(calls) && Uniform(calls, key, limit, window)
    ensures CountInterval(KeyHistory(calls, key).entries, from, window) <= 2 * limit
  {
    hide CountsBounded, StoreMatches, KeyHistory, MemRun, StartedBy;
    var h := KeyHistory(calls, key);
    HistoryInvariant(calls, key, limit, window);
    if exists i :: 0 <= i < |h.entries| && InInterval(h.entries[i], from, window) {
      var i := EarliestWindow(h.entries, from, window);
      forall j | 0 <= j < |h.entries| && InInterval(h.entries[j], from, window)
        ensures h.entries[j].window == h.entries[i].window || h.entries[j].window == h.entries[i].window + 1
      {
        if h.entries[j].window >= h.entries[i].window + 2 {
          TwoWindowsApart(h, window, i, j);
          assert false;
        }
      }
      var w := h.entries[i].window;
      TwoWindowsCover(h.entries, from, window, w);
      WindowBound(calls, key, limit, window, w);
      WindowBound(calls, key, limit, window, w + 1);
    } else {
      NoneCounted(h.entries, from, window);
    }
  }

  lemma {:induction false} NoneCounted(es: seq<Entry>, from: int, length: nat)
    requires forall i :: 0 <= i < |es| ==> !InInterval(es[i], from, length)
    ensures CountInterval(es, from, length) == 0
  {
    if es != [] {
      NoneCounted(es[..|es| - 1], from, length);
    }
  }

  // ---------------------------------------------------------------- the exact answer

  function CountKey(calls: seq<Call>, key: string): nat {
    if calls == [] then 0
    else CountKey(calls[..|calls| - 1], key) + (if calls[|calls| - 1].key == key then 1 else 0)
  }

  /** The last call before `i` that opened a window for its key. */
  predicate LastOpener(calls: seq<Call>, i: nat, key: string, o: nat) {
    && o < i <= |calls| && calls[o].key == key && Opens(calls, o)
    && forall j :: o < j < i && calls[j].key == key ==> !Opens(calls, j)
  }

  /** The window of a key ends its length after the call that opened it; while no call was made for
      the key there is none. */
  lemma {:induction false} WindowEndIs(calls: seq<Call>, i: nat, key: string)
    requires i <= |calls|
    ensures forall o: nat :: LastOpener(calls, i, key, o) ==> WindowEnd(calls[..i], key) == Some(calls[o].now + calls[o].window)
    ensures (forall j :: 0 <= j < i ==> calls[j].key != key) ==> WindowEnd(calls[..i], key) == None
    decreases i
  {
    if i > 0 {
      var n := i - 1;
      assert calls[..i][..n] == calls[..n];
      WindowEndIs(calls, n, key);
      forall o: nat | LastOpener(calls, i, key, o)
        ensures WindowEnd(calls[..i], key) == Some(calls[o].now + calls[o].window)
      {
        if o < n {
          assert LastOpener(calls, n, key, o);
        }
      }
    }
  }

  lemma {:induction false} CountIs(calls: seq<Call>, i: nat, key: string, o: nat)
    requires i <= |calls| && LastOpener(calls, i, key, o)
    ensures key in MemRun(calls[..i]).0 && MemRun(calls[..i]).0[key].count == CountKey(calls[o..i], key)
    decreases i
  {
    hide WindowEnd;
    var n := i - 1;
    assert calls[..i][..n] == calls[..n];
    WindowEndInStore(calls[..n], calls[n].key);
    if o == n {
      assert calls[o..i] == [calls[o]] && [calls[o]][..0] == [];
    } else {
      assert LastOpener(calls, n, key, o);
      CountIs(calls, n, key, o);
      assert calls[o..i][..|calls[o..i]| - 1] == calls[o..n];
    }
  }

  lemma {:induction false} AnswerAt(calls: seq<Call>, i: nat)
    requires i < |calls|
    ensures MemRun(calls).1[i] == MemCheck(MemRun(calls[..i]).0, calls[i]).1
    decreases |calls|
  {
    hide MemCheck;
    var n := |calls| - 1;
    if i < n {
      AnswerAt(calls[..n], i);
      assert calls[..n][..i] == calls[..i];
    }
  }

  /** A call that opens a window passes; any other passes exactly when, with it, the calls for its key
      since the window was opened are at most its limit. A call opens a window exactly when it is the
      first for its key or comes no earlier than the last window's end. */
  lemma AnswerIff(calls: seq<Call>, i: nat, o: nat)
    requires i < |calls| && LastOpener(calls, i, calls[i].key, o)
    ensures Opens(calls, i) <==> calls[o].now + calls[o].window <= calls[i].now
    ensures MemRun(calls).1[i] <==> Opens(calls, i) || CountKey(calls[o..i + 1], calls[i].key) <= calls[i].limit
  {
    hide MemRun, WindowEnd;
    WindowEndIs(calls, i, calls[i].key);
    WindowEndInStore(calls[..i], calls[i].key);
    AnswerAt(calls, i);
    CountIs(calls, i, calls[i].key, o);
    assert calls[o..i + 1][..|calls[o..i + 1]| - 1] == calls[o..i];
  }

  lemma FirstCallPasses(calls: seq<Call>, i: nat)
    requires i < |calls| && forall j :: 0 <= j < i ==> calls[j].key != calls[i].key
    ensures Opens(calls, i) && MemRun(calls).1[i]
  {
    hide MemRun, WindowEnd;
    WindowEndIs(calls, i, calls[i].key);
    WindowEndInStore(calls[..i], calls[i].key);
    AnswerAt(calls, i);
  }
}
