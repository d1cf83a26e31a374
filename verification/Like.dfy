/** The LIKE matcher and what the patterns of `=contains=`, `=starts=` and `=ends=` mean. */
module Like {
  import Rsql

  /** `s LIKE p`: `%` any run, `_` any one character, backslash takes the next character
      literally. A pattern ending in a lone backslash matches nothing. */
  predicate Match(p: string, s: string)
    decreases |p| + |s|
  {
    if p == "" then s == ""
    else if p[0] == '%' then Match(p[1..], s) || (s != "" && Match(p, s[1..]))
    else if s == "" then false
    else if p[0] == '_' then Match(p[1..], s[1..])
    else if p[0] == '\\' then |p| >= 2 && p[1] == s[0] && Match(p[2..], s[1..])
    else p[0] == s[0] && Match(p[1..], s[1..])
  }

  predicate ILike(p: string, s: string) {
    Match(Rsql.Lower(p), Rsql.Lower(s))
  }

  predicate Meta(c: char) { c == '%' || c == '_' || c == '\\' }

  /** Search text with nothing the matcher treats specially. */
  predicate Literal(v: string) { forall i :: 0 <= i < |v| ==> !Meta(v[i]) }

  // What a user means by the three operators, ignoring case.

  predicate StartsWith(s: string, v: string) { |v| <= |s| && s[..|v|] == v }

  predicate EndsWith(s: string, v: string) { |v| <= |s| && s[|s| - |v|..] == v }

  predicate Occurs(s: string, v: string) { exists k :: 0 <= k <= |s| && StartsWith(s[k..], v) }

  // ---------------------------------------------------------------- literal search text

  lemma {:induction false} LiteralFront(v: string, q: string, s: string)
    requires Literal(v)
    ensures Match(v + q, s) <==> StartsWith(s, v) && Match(q, s[|v|..])
    decreases |v|
  {
    if v == "" {
      assert v + q == q && s[0..] == s;
    } else {
      var p := v + q;
      assert p[0] == v[0] && p[1..] == v[1..] + q && !Meta(v[0]);
      if s != "" {
        LiteralFront(v[1..], q, s[1..]);
        if StartsWith(s[1..], v[1..]) && s[0] == v[0] {
          assert s[..|v|] == [s[0]] + s[1..][..|v| - 1];
        }
        if StartsWith(s, v) {
          assert s[0] == v[0] && s[1..][..|v| - 1] == v[1..];
        }
        if |v| <= |s| {
          assert s[1..][|v| - 1..] == s[|v|..];
        }
      }
    }
  }

  lemma {:induction false} AnyRun(s: string)
    ensures Match("%", s)
  {
    assert "%"[1..] == "";
    if s != "" {
      AnyRun(s[1..]);
    }
  }

  /** A leading `%` lets the rest match from any position. */
  lemma {:induction false} LeadingRun(q: string, s: string)
    ensures Match("%" + q, s) <==> exists k :: 0 <= k <= |s| && Match(q, s[k..])
    decreases |s|
  {
    var p := "%" + q;
    assert p[0] == '%' && p[1..] == q;
    assert s[0..] == s;
    if s != "" {
      LeadingRun(q, s[1..]);
      if exists k :: 0 <= k <= |s[1..]| && Match(q, s[1..][k..]) {
        var k :| 0 <= k <= |s[1..]| && Match(q, s[1..][k..]);
        assert s[1..][k..] == s[k + 1..];
      }
      if exists k :: 0 <= k <= |s| && Match(q, s[k..]) {
        var k :| 0 <= k <= |s| && Match(q, s[k..]);
        if k > 0 {
          assert s[1..][k - 1..] == s[k..];
        }
      }
    }
  }

  lemma MatchContains(v: string, s: string)
    requires Literal(v)
    ensures Match("%" + (v + "%"), s) <==> Occurs(s, v)
  {
    hide Match;
    LeadingRun(v + "%", s);
    forall k | 0 <= k <= |s| ensures Match(v + "%", s[k..]) <==> StartsWith(s[k..], v) {
      LiteralFront(v, "%", s[k..]);
      if StartsWith(s[k..], v) {
        AnyRun(s[k..][|v|..]);
      }
    }
  }

  lemma MatchStarts(v: string, s: string)
    requires Literal(v)
    ensures Match(v + "%", s) <==> StartsWith(s, v)
  {
    hide Match;
    LiteralFront(v, "%", s);
    if StartsWith(s, v) {
      AnyRun(s[|v|..]);
    }
  }

  lemma MatchEnds(v: string, s: string)
    requires Literal(v)
    ensures Match("%" + v, s) <==> EndsWith(s, v)
  {
    LeadingRun(v, s);
    assert v + "" == v;
    forall k | 0 <= k <= |s| ensures Match(v, s[k..]) <==> s[k..] == v {
      LiteralFront(v, "", s[k..]);
      if StartsWith(s[k..], v) && s[k..][|v|..] == "" {
        assert s[k..][..|v|] == s[k..];
      }
      if s[k..] == v {
        assert s[k..][..|v|] == v;
      }
    }
    if EndsWith(s, v) {
      assert s[|s| - |v|..] == v;
    }
  }

  // ---------------------------------------------------------------- text with special characters

  /** A pattern in which no backslash is left without a character to quote. */
  predicate Complete(p: string) {
    p == "" || (if p[0] == '\\' then |p| >= 2 && Complete(p[2..]) else Complete(p[1..]))
  }

  /** The shortest text a complete pattern matches, with `a` for every `_`. */
  function Witness(p: string): string
    requires Complete(p)
  {
    if p == "" then ""
    else if p[0] == '%' then Witness(p[1..])
    else if p[0] == '_' then "a" + Witness(p[1..])
    else if p[0] == '\\' then [p[1]] + Witness(p[2..])
    else [p[0]] + Witness(p[1..])
  }

  lemma {:induction false} WitnessMatches(p: string, q: string)
    requires Complete(p)
    ensures Match(q, "") ==> Match(p + q, Witness(p))
    decreases |p|
  {
    if p == "" {
      assert p + q == q;
    } else if p[0] == '\\' {
      WitnessMatches(p[2..], q);
      var w := Witness(p);
      assert (p + q)[2..] == p[2..] + q && (p + q)[1] == p[1] && w[1..] == Witness(p[2..]);
    } else {
      WitnessMatches(p[1..], q);
      var w := Witness(p);
      assert (p + q)[1..] == p[1..] + q && (p + q)[0] == p[0];
      assert p[0] != '%' ==> w[1..] == Witness(p[1..]);
    }
  }

  lemma {:induction false} WitnessDiffers(p: string)
    requires Complete(p)
    ensures |Witness(p)| <= |p|
    ensures !Literal(p) ==> Witness(p) != p
    decreases |p|
  {
    if p != "" {
      if p[0] == '\\' {
        WitnessDiffers(p[2..]);
      } else {
        WitnessDiffers(p[1..]);
        if !Literal(p) && !Meta(p[0]) {
          assert !Literal(p[1..]) by {
            var i :| 0 <= i < |p| && Meta(p[i]);
            assert p[1..][i - 1] == p[i];
          }
          assert Witness(p)[1..] == Witness(p[1..]);
        }
      }
    }
  }

  /** An incomplete text ends in a backslash that quotes whatever is appended. */
  lemma {:induction false} QuotesNext(v: string)
    requires !Complete(v)
    ensures Complete(v + "%")
    ensures |Witness(v + "%")| <= |v| && Witness(v + "%") != v
    decreases |v|
  {
    var p := v + "%";
    if v[0] == '\\' {
      if |v| == 1 {
        assert p[2..] == "" && p[1] == '%';
        assert Witness(p) == "%";
        assert v == "\\";
      } else {
        QuotesNext(v[2..]);
        assert p[2..] == v[2..] + "%" && p[1] == v[1];
      }
    } else {
      QuotesNext(v[1..]);
      assert p[1..] == v[1..] + "%" && p[0] == v[0];
      var w := Witness(p);
      if v[0] != '%' {
        assert w[1..] == Witness(p[1..]);
      }
    }
  }

  lemma {:induction false} IncompleteMatchesNothing(p: string, s: string)
    requires !Complete(p)
    ensures !Match(p, s)
    decreases |p| + |s|
  {
    if p[0] == '%' {
      IncompleteMatchesNothing(p[1..], s);
      if s != "" {
        IncompleteMatchesNothing(p, s[1..]);
      }
    } else if s != "" {
      if p[0] == '\\' {
        if |p| >= 2 {
          IncompleteMatchesNothing(p[2..], s[1..]);
        }
      } else {
        IncompleteMatchesNothing(p[1..], s[1..]);
      }
    }
  }

  /** For text with special characters there is always a value on which the prefix and the
      substring patterns differ from the plain reading. */
  lemma SpecialTextMisfires(v: string) returns (s: string)
    requires !Literal(v)
    ensures Match(v + "%", s) && Match("%" + (v + "%"), s)
    ensures !StartsWith(s, v) && !Occurs(s, v)
    ensures forall c :: c in s ==> c in v || c == 'a' || c == '%'
  {
    AnyRun("");
    if Complete(v) {
      s := Witness(v);
      WitnessMatches(v, "%");
      WitnessDiffers(v);
      WitnessChars(v);
    } else {
      QuotesNext(v);
      var p := v + "%";
      s := Witness(p);
      WitnessMatches(p, "");
      assert p + "" == p;
      assert Match("", "");
      WitnessChars(p);
    }
    LeadingRun(v + "%", s);
    assert s[0..] == s;
  }

  lemma {:induction false} WitnessChars(p: string)
    requires Complete(p)
    ensures forall c :: c in Witness(p) ==> c in p || c == 'a'
    decreases |p|
  {
    if p != "" {
      if p[0] == '\\' {
        WitnessChars(p[2..]);
      } else {
        WitnessChars(p[1..]);
      }
    }
  }

  /** The same for the suffix pattern. */
  lemma SpecialSuffixMisfires(v: string) returns (s: string)
    requires !Literal(v)
    ensures Match("%" + v, s) != EndsWith(s, v)
    ensures forall c :: c in s ==> c in v || c == 'a'
  {
    if Complete(v) {
      s := Witness(v);
      assert v + "" == v && Match("", "");
      WitnessMatches(v, "");
      WitnessDiffers(v);
      LeadingRun(v, s);
      assert s[0..] == s;
      WitnessChars(v);
    } else {
      s := v;
      assert s[0..] == v;
      assert !Complete("%" + v) by { assert ("%" + v)[1..] == v; }
      IncompleteMatchesNothing("%" + v, s);
    }
  }

  // ---------------------------------------------------------------- the emitted patterns

  lemma LowerConcat(a: string, b: string)
    ensures Rsql.Lower(a + b) == Rsql.Lower(a) + Rsql.Lower(b)
  {
  }

  lemma LowerFacts(v: string)
    ensures Rsql.Lower("%") == "%"
    ensures Literal(Rsql.Lower(v)) <==> Literal(v)
    ensures forall c :: c in Rsql.Lower(v) ==> Rsql.LowerChar(c) == c
  {
    var lv := Rsql.Lower(v);
    assert forall i :: 0 <= i < |v| ==> lv[i] == Rsql.LowerChar(v[i]) && (Meta(lv[i]) <==> Meta(v[i]));
    if !Literal(v) {
      var i :| 0 <= i < |v| && Meta(v[i]);
      assert Meta(lv[i]);
    }
  }

  lemma LowerFixed(s: string)
    requires forall c :: c in s ==> Rsql.LowerChar(c) == c
    ensures Rsql.Lower(s) == s
  {
  }

  /** `=contains=` finds exactly the values containing the text, ignoring case, if and only if the
      text has no `%`, `_` or backslash. */
  lemma ContainsExact(v: string)
    ensures Literal(v) <==> forall s :: ILike("%" + v + "%", s) <==> Occurs(Rsql.Lower(s), Rsql.Lower(v))
  {
    hide Match, Occurs, Literal, StartsWith;
    var lv := Rsql.Lower(v);
    LowerFacts(v);
    assert "%" + v + "%" == "%" + (v + "%");
    LowerConcat("%", v + "%");
    LowerConcat(v, "%");
    if Literal(v) {
      forall s ensures ILike("%" + v + "%", s) <==> Occurs(Rsql.Lower(s), lv) {
        MatchContains(lv, Rsql.Lower(s));
      }
    } else {
      var s := SpecialTextMisfires(lv);
      LowerFixed(s);
      assert ILike("%" + v + "%", s) && !Occurs(Rsql.Lower(s), lv);
    }
  }

  /** The same for `=starts=` and prefixes. */
  lemma StartsExact(v: string)
    ensures Literal(v) <==> forall s :: ILike(v + "%", s) <==> StartsWith(Rsql.Lower(s), Rsql.Lower(v))
  {
    hide Match, Occurs, Literal, StartsWith;
    var lv := Rsql.Lower(v);
    LowerFacts(v);
    LowerConcat(v, "%");
    if Literal(v) {
      forall s ensures ILike(v + "%", s) <==> StartsWith(Rsql.Lower(s), lv) {
        MatchStarts(lv, Rsql.Lower(s));
      }
    } else {
      var s := SpecialTextMisfires(lv);
      LowerFixed(s);
      assert ILike(v + "%", s) && !StartsWith(Rsql.Lower(s), lv);
    }
  }

  /** The same for `=ends=` and suffixes. */
  lemma EndsExact(v: string)
    ensures Literal(v) <==> forall s :: ILike("%" + v, s) <==> EndsWith(Rsql.Lower(s), Rsql.Lower(v))
  {
    hide Match, Occurs, Literal, EndsWith;
    var lv := Rsql.Lower(v);
    LowerFacts(v);
    LowerConcat("%", v);
    if Literal(v) {
      forall s ensures ILike("%" + v, s) <==> EndsWith(Rsql.Lower(s), lv) {
        MatchEnds(lv, Rsql.Lower(s));
      }
    } else {
      var s := SpecialSuffixMisfires(lv);
      LowerFixed(s);
      assert ILike("%" + v, s) != EndsWith(Rsql.Lower(s), lv);
    }
  }

  // ---------------------------------------------------------------- the matcher, symbol by symbol

  /** `%` is any run, `_` any one character, a backslash quotes the next character, anything else is
      itself. */
  lemma MatchIs(c: char, q: string, s: string)
    ensures Match("", s) <==> s == ""
    ensures Match("%" + q, s) <==> exists k :: 0 <= k <= |s| && Match(q, s[k..])
    ensures Match("_" + q, s) <==> s != "" && Match(q, s[1..])
    ensures Match("\\" + [c] + q, s) <==> s != "" && s[0] == c && Match(q, s[1..])
    ensures !Match("\\", s)
    ensures !Meta(c) ==> (Match([c] + q, s) <==> s != "" && s[0] == c && Match(q, s[1..]))
  {
    LeadingRun(q, s);
    var one, two, three := "_" + q, "\\" + [c] + q, [c] + q;
    assert one[0] == '_' && one[1..] == q;
    assert two[0] == '\\' && two[1] == c && two[2..] == q;
    assert three[0] == c && three[1..] == q;
  }
}
