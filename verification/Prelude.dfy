/** Small types and string helpers shared by every component. */
module Prelude {

  datatype Option<+T> = None | Some(value: T)

  datatype Result<+T, +E> = Ok(value: T) | Err(error: E)

  /** Index of the first character at or after `pos` that fails `p`, or the end of the text.
      Every scanning loop of the original is this function. */
  function SkipWhile(s: string, pos: nat, p: char -> bool): (e: nat)
    requires pos <= |s|
    ensures pos <= e <= |s|
    ensures forall i :: pos <= i < e ==> p(s[i])
    ensures e < |s| ==> !p(s[e])
    decreases |s| - pos
  {
    if pos < |s| && p(s[pos]) then SkipWhile(s, pos + 1, p) else pos
  }

  /** The contract of `SkipWhile` determines its result. */
  lemma SkipWhileStopsAt(s: string, pos: nat, p: char -> bool, e: nat)
    requires pos <= e <= |s|
    requires forall i :: pos <= i < e ==> p(s[i])
    requires e < |s| ==> !p(s[e])
    ensures SkipWhile(s, pos, p) == e
  {
  }

  const LETTERS := "abcdefghijklmnopqrstuvwxyz"
  const CAPITALS := "ABCDEFGHIJKLMNOPQRSTUVWXYZ"

  lemma LettersAre(c: char)
    ensures c in LETTERS <==> 'a' <= c <= 'z'
    ensures 'a' <= c <= 'z' ==> LETTERS[c as int - 97] == c
  {
  }

  lemma CapitalsAre(c: char)
    ensures c in CAPITALS <==> 'A' <= c <= 'Z'
    ensures 'A' <= c <= 'Z' ==> CAPITALS[c as int - 65] == c
  {
  }

  function Join(parts: seq<string>, sep: string): string {
    if parts == [] then "" else if |parts| == 1 then parts[0] else parts[0] + sep + Join(parts[1..], sep)
  }

  // Sequence facts, kept apart from the proofs that use them.

  lemma AppendNil<T>(a: seq<T>)
    ensures a + [] == a
  {
  }

  lemma Assoc<T>(a: seq<T>, b: seq<T>, c: seq<T>)
    ensures (a + b) + c == a + (b + c)
  {
  }

  lemma HeadTail<T>(s: seq<T>)
    requires s != []
    ensures [s[0]] + s[1..] == s
  {
  }

  lemma ConsParts<T>(x: T, s: seq<T>)
    ensures ([x] + s)[0] == x && ([x] + s)[1..] == s
  {
  }

  /** Moving the head of the second part to the end of the first. */
  lemma MoveHead<T>(a: seq<T>, s: seq<T>)
    requires s != []
    ensures (a + [s[0]]) + s[1..] == a + s
  {
  }

  /** All results in order. */
  function FlatMap<A, B>(xs: seq<A>, f: A -> seq<B>): seq<B> {
    if xs == [] then [] else FlatMap(xs[..|xs| - 1], f) + f(xs[|xs| - 1])
  }

  lemma {:induction false} FlatMapPrefix<A, B>(xs: seq<A>, f: A -> seq<B>, k: nat, part: seq<B>)
    requires k < |xs| && part <= f(xs[k])
    ensures FlatMap(xs[..k], f) + part <= FlatMap(xs, f)
    decreases |xs|
  {
    var n := |xs| - 1;
    if k == n {
    } else {
      assert xs[..n][..k] == xs[..k];
      FlatMapPrefix(xs[..n], f, k, part);
    }
  }

  lemma FlatMapNext<A, B>(xs: seq<A>, f: A -> seq<B>, k: nat)
    requires k < |xs|
    ensures FlatMap(xs[..k + 1], f) == FlatMap(xs[..k], f) + f(xs[k])
  {
    assert xs[..k + 1][..k] == xs[..k];
  }

  lemma {:induction false} FlatMapMember<A, B>(xs: seq<A>, f: A -> seq<B>, y: B)
    ensures y in FlatMap(xs, f) <==> exists i :: 0 <= i < |xs| && y in f(xs[i])
  {
    if xs != [] {
      var n := |xs| - 1;
      FlatMapMember(xs[..n], f, y);
      if exists i :: 0 <= i < |xs| && y in f(xs[i]) {
        var i :| 0 <= i < |xs| && y in f(xs[i]);
        assert i < n ==> xs[..n][i] == xs[i];
      }
    }
  }
}
