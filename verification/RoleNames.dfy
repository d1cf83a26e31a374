/** Role uids, `to_uid` of `src/repo/roles.rs`: lower-case slugs derived from role names. Letters
    and case are ASCII. */
module RoleNames {
  import opened Prelude
  import Rsql

  predicate SlugChar(c: char) { 'a' <= c <= 'z' || '0' <= c <= '9' }

  /** What the loop pushes for the rest of a name: `gap` says that an underscore was just pushed,
      or nothing yet. */
  function Slug(lower: string, gap: bool): string {
    if lower == "" then ""
    else if SlugChar(lower[0]) then [lower[0]] + Slug(lower[1..], false)
    else if gap then Slug(lower[1..], true)
    else "_" + Slug(lower[1..], true)
  }

  function DropTrailing(s: string): string { if s != "" && s[|s| - 1] == '_' then s[..|s| - 1] else s }

  function ToUid(name: string): string { DropTrailing(Slug(Rsql.Lower(Rsql.Trim(name)), true)) }

  method MakeUid(name: string) returns (uid: string)
    ensures uid == ToUid(name)
    ensures IsSlug(uid)
  {
    var lower := Rsql.Lower(Rsql.Trim(name));
    uid := "";
    var gap := true;
    for i := 0 to |lower|
      invariant uid + Slug(lower[i..], gap) == Slug(lower, true)
    {
      var c := lower[i];
      assert lower[i..][1..] == lower[i + 1..];
      if SlugChar(c) {
        assert uid + ([c] + Slug(lower[i + 1..], false)) == (uid + [c]) + Slug(lower[i + 1..], false);
        uid := uid + [c];
        gap := false;
      } else if !gap {
        assert uid + ("_" + Slug(lower[i + 1..], true)) == (uid + "_") + Slug(lower[i + 1..], true);
        uid := uid + "_";
        gap := true;
      }
    }
    assert Slug(lower[|lower|..], gap) == "" && uid + "" == uid;
    if uid != "" && uid[|uid| - 1] == '_' {
      uid := uid[..|uid| - 1];
    }
    UidIsSlug(name);
  }

  /** Letters and digits in groups separated by single underscores. */
  predicate IsSlug(u: string) {
    && (forall i :: 0 <= i < |u| ==> SlugChar(u[i]) || u[i] == '_')
    && (u != "" ==> u[0] != '_' && u[|u| - 1] != '_')
    && Spread(u)
  }

  predicate Spread(u: string) { forall i :: 0 < i < |u| && u[i] == '_' ==> u[i - 1] != '_' }

  lemma {:induction false} SlugShape(lower: string, gap: bool)
    ensures var u := Slug(lower, gap);
            && (forall i :: 0 <= i < |u| ==> SlugChar(u[i]) || u[i] == '_')
            && (gap && u != "" ==> u[0] != '_')
            && Spread(u)
  {
    if lower != "" {
      SlugShape(lower[1..], if SlugChar(lower[0]) then false else true);
    }
  }

  lemma UidIsSlug(name: string)
    ensures IsSlug(ToUid(name))
  {
    SlugShape(Rsql.Lower(Rsql.Trim(name)), true);
  }

  /** The loop leaves a text already in slug form alone. */
  lemma {:induction false} SlugKeeps(u: string, gap: bool)
    requires forall i :: 0 <= i < |u| ==> SlugChar(u[i]) || u[i] == '_'
    requires Spread(u) && (gap && u != "" ==> u[0] != '_')
    ensures Slug(u, gap) == u
  {
    if u != "" {
      assert forall i :: 0 <= i < |u[1..]| ==> u[1..][i] == u[i + 1];
      SlugKeeps(u[1..], u[0] == '_');
      HeadTail(u);
    }
  }

  lemma SlugIsPlain(u: string)
    requires IsSlug(u)
    ensures Rsql.Trim(u) == u && Rsql.Lower(u) == u
  {
    if u != "" {
      assert SlugChar(u[0]) && SlugChar(u[|u| - 1]);
      Rsql.TrimKeeps(u);
    }
    assert forall i :: 0 <= i < |u| ==> Rsql.LowerChar(u[i]) == u[i];
    assert Rsql.Lower(u) == u;
  }

  lemma UidOfSlug(u: string)
    requires IsSlug(u)
    ensures ToUid(u) == u
  {
    hide Rsql.Trim, Rsql.Lower;
    SlugIsPlain(u);
    SlugKeeps(u, true);
  }

  lemma SlugIsAscii(u: string)
    requires IsSlug(u)
    ensures Ascii(u)
  {
  }

  predicate Ascii(s: string) { forall i :: 0 <= i < |s| ==> s[i] as int < 128 }

  /** The uids an ASCII name can get are exactly the slugs, and deriving a uid from a uid changes
      nothing. */
  lemma UidsAreSlugs(u: string)
    ensures IsSlug(u) <==> exists name :: Ascii(name) && ToUid(name) == u
    ensures IsSlug(u) ==> ToUid(u) == u
  {
    hide IsSlug, ToUid;
    if IsSlug(u) {
      SlugIsAscii(u);
      UidOfSlug(u);
    }
    if name :| Ascii(name) && ToUid(name) == u {
      UidIsSlug(name);
    }
  }
}
