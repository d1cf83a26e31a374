/** Sorting and deduplicating vectors by name: a stable sort and the removal of neighbours with one
    name, as `sort_by`/`dedup_by` and `sort`/`dedup` are used. */
module Sorting {
  /** An entry under the name it is sorted by. */
  datatype Row<+T> = Row(name: string, value: T)

  // ---------------------------------------------------------------- the order of names

  /** Strict lexicographic order by code point, which for UTF-8 is the order of `str`. */
  predicate Less(a: string, b: string) {
    if b == "" then false
    else if a == "" then true
    else if a[0] != b[0] then a[0] < b[0]
    else Less(a[1..], b[1..])
  }

  lemma {:induction false} LessTotal(a: string, b: string)
    ensures a == b <==> !Less(a, b) && !Less(b, a)
    ensures !(Less(a, b) && Less(b, a))
  {
    if a != "" && b != "" && a[0] == b[0] {
      LessTotal(a[1..], b[1..]);
      assert a == [a[0]] + a[1..] && b == [b[0]] + b[1..];
    }
  }

  lemma {:induction false} LessTransitive(a: string, b: string, c: string)
    requires !Less(b, a) && !Less(c, b)
    ensures !Less(c, a)
    decreases |a|
  {
    if a != "" && b != "" && c != "" && a[0] == b[0] == c[0] {
      LessTransitive(a[1..], b[1..], c[1..]);
    }
  }

  predicate Sorted<T>(s: seq<Row<T>>) { forall i, j :: 0 <= i < j < |s| ==> !Less(s[j].name, s[i].name) }

  predicate StrictlySorted<T>(s: seq<Row<T>>) { forall i, j :: 0 <= i < j < |s| ==> Less(s[i].name, s[j].name) }

  /** The rows of one name, in order. */
  function Named<T>(s: seq<Row<T>>, name: string): seq<Row<T>> {
    if s == [] then []
    else Named(s[..|s| - 1], name) + if s[|s| - 1].name == name then [s[|s| - 1]] else []
  }

  /** What a stable sort by name promises: sorted, and the rows of each name kept in order. */
  ghost predicate StableSortOf<T>(raw: seq<Row<T>>, out: seq<Row<T>>) {
    Sorted(out) && forall name :: Named(out, name) == Named(raw, name)
  }

  // ---------------------------------------------------------------- sorting and deduplicating

  /** Insert a row behind every row that does not come after it. */
  function Insert<T>(s: seq<Row<T>>, r: Row<T>): (t: seq<Row<T>>)
    ensures |t| == |s| + 1
  {
    if s == [] then [r]
    else if Less(r.name, s[|s| - 1].name) then Insert(s[..|s| - 1], r) + [s[|s| - 1]]
    else s + [r]
  }

  lemma Snoc<T>(s: seq<Row<T>>, r: Row<T>, name: string)
    ensures Named(s + [r], name) == Named(s, name) + if r.name == name then [r] else []
  {
    assert (s + [r])[..|s|] == s;
  }

  lemma {:induction false} InsertNamed<T>(s: seq<Row<T>>, r: Row<T>, name: string)
    ensures Named(Insert(s, r), name) == Named(s, name) + if r.name == name then [r] else []
    decreases |s|
  {
    if s == [] || !Less(r.name, s[|s| - 1].name) {
      assert s == [] ==> Insert(s, r) == [] + [r];
      Snoc(s, r, name);
    } else {
      var last := s[|s| - 1];
      InsertNamed(s[..|s| - 1], r, name);
      Snoc(Insert(s[..|s| - 1], r), last, name);
      LessTotal(r.name, last.name);
    }
  }

  /** Inserting adds the row and nothing else. */
  lemma {:induction false} InsertMembers<T>(s: seq<Row<T>>, r: Row<T>, x: Row<T>)
    ensures x in Insert(s, r) <==> x in s || x == r
    decreases |s|
  {
    if s != [] && Less(r.name, s[|s| - 1].name) {
      InsertMembers(s[..|s| - 1], r, x);
      assert s == s[..|s| - 1] + [s[|s| - 1]];
    }
  }

  lemma {:induction false} InsertSorted<T>(s: seq<Row<T>>, r: Row<T>)
    requires Sorted(s)
    ensures Sorted(Insert(s, r))
    decreases |s|
  {
    hide Less;
    if s != [] {
      var front, last := s[..|s| - 1], s[|s| - 1];
      if Less(r.name, last.name) {
        InsertSorted(front, r);
        forall i | 0 <= i < |Insert(front, r)| ensures !Less(last.name, Insert(front, r)[i].name) {
          InsertMembers(front, r, Insert(front, r)[i]);
          LessTotal(r.name, last.name);
        }
      } else {
        forall i | 0 <= i < |s| ensures !Less(r.name, s[i].name) {
          if i < |s| - 1 {
            LessTransitive(s[i].name, last.name, r.name);
          }
        }
      }
    }
  }

  /** A stable insertion sort, standing for `sort_by` on the names. */
  method SortByName<T>(raw: seq<Row<T>>) returns (out: seq<Row<T>>)
    ensures StableSortOf(raw, out)
  {
    hide Insert, Less, Sorted;
    out := [];
    assert Sorted(out) by { EmptySorted<T>(); }
    for i := 0 to |raw|
      invariant StableSortOf(raw[..i], out)
    {
      InsertSorted(out, raw[i]);
      forall name ensures Named(Insert(out, raw[i]), name) == Named(raw[..i + 1], name) {
        InsertNamed(out, raw[i], name);
        assert raw[..i + 1] == raw[..i] + [raw[i]];
        Snoc(raw[..i], raw[i], name);
      }
      out := Insert(out, raw[i]);
    }
    assert raw[..|raw|] == raw;
  }

  lemma EmptySorted<T>()
    ensures Sorted<T>([])
  {
  }

  /** `dedup_by` on the names: of neighbours with one name the first stays. */
  function Dedup<T>(s: seq<Row<T>>): seq<Row<T>> {
    if s == [] then []
    else
      var d := Dedup(s[..|s| - 1]);
      if d != [] && d[|d| - 1].name == s[|s| - 1].name then d else d + [s[|s| - 1]]
  }

  method DedupByName<T>(s: seq<Row<T>>) returns (out: seq<Row<T>>)
    ensures out == Dedup(s)
  {
    out := [];
    for i := 0 to |s|
      invariant out == Dedup(s[..i])
    {
      assert s[..i + 1][..i] == s[..i] && s[..i + 1][i] == s[i];
      if out == [] || out[|out| - 1].name != s[i].name {
        out := out + [s[i]];
      }
    }
    assert s[..|s|] == s;
  }

  // ---------------------------------------------------------------- what the list contains

  /** Each name once, in order, with the first row of that name. */
  ghost predicate Summary<T>(raw: seq<Row<T>>, out: seq<Row<T>>) {
    && StrictlySorted(out)
    && (forall i :: 0 <= i < |out| ==> Named(raw, out[i].name) != [] && out[i] == Named(raw, out[i].name)[0])
    && (forall name :: Named(raw, name) != [] ==> exists i :: 0 <= i < |out| && out[i].name == name)
  }

  lemma {:induction false} NamedFrom<T>(s: seq<Row<T>>, name: string)
    ensures forall x :: x in Named(s, name) ==> x in s && x.name == name
  {
    if s != [] {
      NamedFrom(s[..|s| - 1], name);
    }
  }

  lemma {:induction false} NamedMember<T>(s: seq<Row<T>>, r: Row<T>)
    ensures r in s <==> r in Named(s, r.name)
    ensures forall x :: x in Named(s, r.name) ==> x.name == r.name
  {
    if s != [] {
      NamedMember(s[..|s| - 1], r);
      assert s == s[..|s| - 1] + [s[|s| - 1]];
    }
  }

  /** Deduplicating a sorted list summarises it; its last name is the greatest. */
  lemma {:induction false} DedupSummary<T>(s: seq<Row<T>>)
    requires Sorted(s)
    ensures Summary(s, Dedup(s))
    ensures s != [] ==> Dedup(s) != [] && Dedup(s)[|Dedup(s)| - 1].name == s[|s| - 1].name
    decreases |s|
  {
    hide Less, Named, Summary, Sorted;
    if s == [] {
      EmptySummary<T>();
    } else {
      var front, last := s[..|s| - 1], s[|s| - 1];
      SortedFront(s);
      DedupSummary(front);
      DedupStep(front, last, Dedup(front));
      assert s == front + [last];
    }
  }

  lemma SortedFront<T>(s: seq<Row<T>>)
    requires s != [] && Sorted(s)
    ensures Sorted(s[..|s| - 1])
    ensures |s| > 1 ==> !Less(s[|s| - 1].name, s[..|s| - 1][|s| - 2].name)
  {
  }

  lemma DedupStep<T>(front: seq<Row<T>>, last: Row<T>, d: seq<Row<T>>)
    requires Summary(front, d)
    requires front != [] ==> d != [] && d[|d| - 1].name == front[|front| - 1].name && !Less(last.name, front[|front| - 1].name)
    ensures Summary(front + [last], if d != [] && d[|d| - 1].name == last.name then d else d + [last])
  {
    hide Less, Named, Summary;
    forall name ensures Named(front + [last], name) == Named(front, name) + if last.name == name then [last] else [] {
      Snoc(front, last, name);
    }
    if d != [] && d[|d| - 1].name == last.name {
      KeepSummary(front, last, d);
    } else {
      if front != [] {
        LessTotal(front[|front| - 1].name, last.name);
        SummarySorted(front, d);
        AllBelow(d, front[|front| - 1].name, last);
      } else {
        SummaryOfNone(d);
      }
      ExtendSummary(front, last, d);
    }
  }

  lemma SummaryOfNone<T>(d: seq<Row<T>>)
    requires Summary([], d)
    ensures d == []
  {
    if d != [] {
      EmptyNamed<T>(d[0].name);
    }
  }

  lemma EmptySummary<T>()
    ensures Summary<T>([], [])
  {
    forall name ensures Named<T>([], name) == [] {
      EmptyNamed<T>(name);
    }
  }

  lemma SummarySorted<T>(s: seq<Row<T>>, d: seq<Row<T>>)
    requires Summary(s, d)
    ensures StrictlySorted(d)
  {
  }

  lemma KeepSummary<T>(front: seq<Row<T>>, last: Row<T>, d: seq<Row<T>>)
    requires Summary(front, d) && d != [] && d[|d| - 1].name == last.name
    requires forall name :: Named(front + [last], name) == Named(front, name) + if last.name == name then [last] else []
    ensures Summary(front + [last], d)
  {
    hide Less, Named;
  }

  /** A row that comes after the last name so far comes after all of them. */
  lemma AllBelow<T>(d: seq<Row<T>>, top: string, last: Row<T>)
    requires StrictlySorted(d) && d != [] && d[|d| - 1].name == top && Less(top, last.name)
    ensures forall i :: 0 <= i < |d| ==> Less(d[i].name, last.name)
  {
    hide Less;
    forall i | 0 <= i < |d| ensures Less(d[i].name, last.name) {
      if i < |d| - 1 {
        LessChain(d[i].name, top, last.name);
      }
    }
  }

  /** What the list of a prefix says about a new, greater name. */
  lemma NewName<T>(front: seq<Row<T>>, last: Row<T>, d: seq<Row<T>>)
    requires Summary(front, d) && forall i :: 0 <= i < |d| ==> Less(d[i].name, last.name)
    ensures Named(front, last.name) == []
  {
    hide Less, Named;
    LessTotal(last.name, last.name);
  }

  lemma ExtendSummary<T>(front: seq<Row<T>>, last: Row<T>, d: seq<Row<T>>)
    requires Summary(front, d) && forall i :: 0 <= i < |d| ==> Less(d[i].name, last.name)
    ensures Summary(front + [last], d + [last])
  {
    NewName(front, last, d);
    hide Less, Named, StrictlySorted;
    var out := d + [last];
    forall i | 0 <= i < |out| ensures Named(front + [last], out[i].name) != [] && out[i] == Named(front + [last], out[i].name)[0] {
      Snoc(front, last, out[i].name);
      assert i < |d| ==> out[i] == d[i];
    }
    forall name | Named(front + [last], name) != [] ensures exists i :: 0 <= i < |out| && out[i].name == name {
      Snoc(front, last, name);
      if name == last.name {
        assert out[|d|] == last;
      } else {
        var i :| 0 <= i < |d| && d[i].name == name;
        assert out[i] == d[i];
      }
    }
  }

  lemma EmptyNamed<T>(name: string)
    ensures Named<T>([], name) == []
  {
  }

  lemma LessChain(a: string, b: string, c: string)
    requires Less(a, b) && Less(b, c)
    ensures Less(a, c)
  {
    hide Less;
    LessTotal(a, b);
    LessTotal(b, c);
    LessTotal(a, c);
    LessTransitive(a, b, c);
  }

  lemma SummaryOfSort<T>(raw: seq<Row<T>>, sorted: seq<Row<T>>, out: seq<Row<T>>)
    requires StableSortOf(raw, sorted) && Summary(sorted, out)
    ensures Summary(raw, out)
  {
    hide Named, Less;
  }
}
