/** Role uids from names, put together from pieces: words of letters and digits in lower case, with
    one underscore for whatever stands between two of them. */
module RoleUids {
  import opened Prelude
  import opened Rsql
  import opened RsqlLanguage
  import opened RoleNames

  predicate LetterOrDigit(c: char) { c in LETTERS || c in CAPITALS || c in "0123456789" }

  predicate Word(w: string) { forall i :: 0 <= i < |w| ==> LetterOrDigit(w[i]) }

  predicate Gap(g: string) { forall i :: 0 <= i < |g| ==> !LetterOrDigit(g[i]) }

  lemma LetterIs(c: char)
    ensures LetterOrDigit(c) <==> SlugChar(LowerChar(c))
    ensures White(c) ==> !LetterOrDigit(c)
  {
    LettersAre(c);
    CapitalsAre(c);
    DigitsAre(c);
  }

  lemma DigitsAre(c: char)
    ensures c in "0123456789" <==> '0' <= c <= '9'
  {
    if '0' <= c <= '9' {
      assert "0123456789"[c as int - 48] == c;
    }
  }

  /** What the loop remembers after a text. */
  function GapAfter(x: string, gap: bool): bool { if x == "" then gap else !SlugChar(x[|x| - 1]) }

  lemma {:induction false} SlugAppend(x: string, y: string, gap: bool)
    ensures Slug(x + y, gap) == Slug(x, gap) + Slug(y, GapAfter(x, gap))
  {
    if x == "" {
      assert x + y == y;
    } else {
      var next := !SlugChar(x[0]);
      assert (x + y)[0] == x[0] && (x + y)[1..] == x[1..] + y;
      SlugAppend(x[1..], y, next);
      assert GapAfter(x[1..], next) == GapAfter(x, gap);
    }
  }

  lemma {:induction false} SlugOfGap(g: string, gap: bool)
    requires forall i :: 0 <= i < |g| ==> !SlugChar(g[i])
    ensures Slug(g, gap) == if g == "" || gap then "" else "_"
  {
    if g != "" {
      SlugOfGap(g[1..], true);
    }
  }

  lemma LowerAppend(a: string, b: string)
    ensures Lower(a + b) == Lower(a) + Lower(b)
  {
  }

  lemma LowerGap(g: string)
    requires Gap(g)
    ensures forall i :: 0 <= i < |Lower(g)| ==> !SlugChar(Lower(g)[i])
  {
    hide LetterOrDigit, SlugChar, LowerChar;
    forall i | 0 <= i < |g| ensures !SlugChar(Lower(g)[i]) {
      LetterIs(g[i]);
    }
  }

  function Raw(name: string): string { Slug(Lower(name), true) }

  /** The raw slug ends with an underscore exactly after a gap. */
  lemma {:induction false} RawEnd(lower: string, gap: bool)
    requires Slug(lower, gap) != ""
    ensures GapAfter(lower, gap) <==> Slug(lower, gap)[|Slug(lower, gap)| - 1] == '_'
  {
    if lower != "" {
      var next := !SlugChar(lower[0]);
      assert GapAfter(lower[1..], next) == GapAfter(lower, gap);
      if Slug(lower[1..], next) != "" {
        RawEnd(lower[1..], next);
      } else {
        EmptySlug(lower[1..], next);
      }
    }
  }

  /** Nothing is pushed for nothing, or for a gap after a gap. */
  lemma {:induction false} EmptySlug(lower: string, gap: bool)
    requires Slug(lower, gap) == ""
    ensures GapAfter(lower, gap) == gap && (lower != "" ==> gap)
  {
    if lower != "" {
      EmptySlug(lower[1..], true);
    }
  }

  /** A gap after a name adds an underscore unless the slug is empty or has one. */
  lemma RawGap(a: string, g: string)
    requires Gap(g)
    ensures Raw(a + g) == if g == "" || Raw(a) == "" then Raw(a) else DropTrailing(Raw(a)) + "_"
  {
    hide Slug, GapAfter, Lower;
    LowerAppend(a, g);
    LowerGap(g);
    LowerEach(g);
    SlugAppend(Lower(a), Lower(g), true);
    SlugOfGap(Lower(g), GapAfter(Lower(a), true));
    if Raw(a) == "" {
      EmptySlug(Lower(a), true);
    } else {
      RawEnd(Lower(a), true);
    }
  }

  lemma RawAfterGap(a: string, g: string, b: string)
    requires Gap(g) && g != ""
    ensures Raw(a + g + b) == Raw(a + g) + Raw(b)
  {
    hide Slug, Lower;
    LowerAppend(a, g);
    LowerAppend(a + g, b);
    LowerGap(g);
    LowerEach(g);
    SlugAppend(Lower(a + g), Lower(b), true);
    assert Lower(a + g)[|Lower(a + g)| - 1] == Lower(g)[|g| - 1];
  }

  lemma DropAppend(x: string, y: string)
    requires y != "" && y[0] != '_'
    ensures DropTrailing(x + "_" + y) == x + "_" + DropTrailing(y) && DropTrailing(y) != ""
  {
    var all := x + "_" + y;
    assert all[|all| - 1] == y[|y| - 1];
    if y[|y| - 1] == '_' {
      assert all[..|all| - 1] == x + "_" + y[..|y| - 1];
    }
  }

  lemma WhiteIsGap(s: string)
    requires AllWhite(s)
    ensures Gap(s)
  {
    hide White, LetterOrDigit;
    forall i | 0 <= i < |s| ensures !LetterOrDigit(s[i]) {
      LetterIs(s[i]);
    }
  }

  lemma TrimPieces(name: string) returns (a: string, b: string)
    ensures name == a + Trim(name) + b && Gap(a) && Gap(b)
  {
    hide Gap, AllWhite, Trim;
    TrimIsTrimmed(name);
    a, b :| name == a + Trim(name) + b && AllWhite(a) && AllWhite(b);
    WhiteIsGap(a);
    WhiteIsGap(b);
  }

  lemma RawOpening(a: string, s: string)
    requires Gap(a)
    ensures Raw(a + s) == Raw(s)
  {
    hide Gap, Raw;
    RawGap("", a);
    EmptyRaw();
    if a != "" {
      RawAfterGap("", a, s);
      assert "" + a + s == a + s && "" + a == a;
    } else {
      assert a + s == s;
    }
  }

  /** Surrounding white space is a gap like any other. */
  lemma UidIsRaw(name: string)
    ensures ToUid(name) == DropTrailing(Raw(name))
  {
    hide Gap, Trim, Slug, Lower;
    var a, b := TrimPieces(name);
    var s := Trim(name);
    RawOpening(a, s);
    RawGap(a + s, b);
    SlugShape(Lower(s), true);
  }

  lemma EmptyRaw()
    ensures Raw("") == ""
  {
    LowerEach("");
  }

  // ---------------------------------------------------------------- the laws

  /** A word is its own uid, in lower case. */
  lemma WordUid(w: string)
    requires Word(w)
    ensures ToUid(w) == Lower(w)
  {
    hide LetterOrDigit, SlugChar, LowerChar, Lower, ToUid, Slug, DropTrailing;
    UidIsRaw(w);
    LowerEach(w);
    forall i | 0 <= i < |w| ensures SlugChar(Lower(w)[i]) {
      LetterIs(w[i]);
    }
    SlugOfWord(Lower(w));
  }

  lemma SlugOfWord(u: string)
    requires forall i :: 0 <= i < |u| ==> SlugChar(u[i])
    ensures Slug(u, true) == u && DropTrailing(u) == u
  {
    hide Slug;
    SlugKeeps(u, true);
  }

  /** Text without letters and digits has an empty uid. */
  lemma GapUid(g: string)
    requires Gap(g)
    ensures ToUid(g) == ""
  {
    hide ToUid, Slug, Gap;
    UidIsRaw(g);
    RawGap("", g);
    EmptyRaw();
    assert "" + g == g;
  }

  /** Two names with a gap between them: their uids with one underscore between, or the one that is
      not empty. */
  lemma JoinedUid(a: string, g: string, b: string)
    requires Gap(g) && g != ""
    ensures ToUid(a + g + b) == if ToUid(a) == "" then ToUid(b) else if ToUid(b) == "" then ToUid(a) else ToUid(a) + "_" + ToUid(b)
  {
    hide ToUid, Slug, Gap, Lower;
    UidIsRaw(a);
    UidIsRaw(b);
    UidIsRaw(a + g + b);
    RawGap(a, g);
    RawAfterGap(a, g, b);
    SlugShape(Lower(a), true);
    SlugShape(Lower(b), true);
    if Raw(a) == "" {
      assert "" + Raw(b) == Raw(b);
    } else if Raw(b) == "" {
      AppendNil(Raw(a + g));
    } else {
      DropAppend(DropTrailing(Raw(a)), Raw(b));
      NonemptyUid(Raw(a));
    }
  }

  lemma NonemptyUid(u: string)
    requires u != "" && u[0] != '_'
    ensures DropTrailing(u) != ""
  {
  }
}
