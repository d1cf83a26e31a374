/** How the lexer treats texts put together from pieces. */
module SqlText {
  import opened Prelude
  import opened Sql

  predicate NoTick(s: string) { '\'' !in s }

  /** Characters at which a preceding word, number or comparison certainly ends. */
  predicate Boundary(s: string) { s == "" || s[0] == ' ' || s[0] == ')' || s[0] == ',' }

  predicate IsWord(w: string) { w != "" && forall i :: 0 <= i < |w| ==> WordChar(w[i]) }

  lemma SkipAppend(a: string, b: string, pos: nat, p: char -> bool)
    requires pos <= |a| && (b == "" || !p(b[0]))
    ensures SkipWhile(a + b, pos, p) == SkipWhile(a, pos, p)
  {
    var e := SkipWhile(a, pos, p);
    forall i | pos <= i < e ensures p((a + b)[i]) {
      assert (a + b)[i] == a[i];
    }
    SkipWhileStopsAt(a + b, pos, p, e);
  }

  lemma SliceAppend(a: string, b: string, lo: nat, hi: nat)
    requires lo <= hi <= |a|
    ensures (a + b)[lo..hi] == a[lo..hi] && (a + b)[hi..] == a[hi..] + b
  {
  }

  lemma LexOneAppend(a: string, b: string)
    requires a != "" && NoTick(a) && Boundary(b)
    ensures LexOne(a + b) == LexOne(a)
  {
    hide SkipWhile;
    assert (a + b)[0] == a[0];
    assert 1 < |a| ==> (a + b)[1] == a[1];
    assert |a| == 1 && b != "" ==> (a + b)[1] == b[0];
    if WordChar(a[0]) {
      SkipAppend(a, b, 1, WordChar);
      SliceAppend(a, b, 0, SkipWhile(a, 1, WordChar));
    } else if a[0] == '$' {
      SkipAppend(a, b, 1, Digit);
      SliceAppend(a, b, 1, SkipWhile(a, 1, Digit));
    }
  }

  lemma {:induction false} LexAppend(a: string, b: string)
    requires NoTick(a) && Boundary(b)
    ensures Lex(a + b) == Lex(a) + Lex(b)
    decreases |a|
  {
    hide LexOne;
    if a == "" {
      assert a + b == b;
    } else {
      LexOneAppend(a, b);
      var (t, n) := LexOne(a);
      SliceAppend(a, b, 0, n);
      LexAppend(a[n..], b);
      assert Lex(a + b) == t + Lex((a + b)[n..]);
    }
  }

  lemma LexSpace(b: string)
    ensures Lex(" " + b) == Lex(b)
  {
    assert (" " + b)[1..] == b;
  }

  lemma LexSpaced(a: string, b: string)
    requires NoTick(a)
    ensures Lex(a + " " + b) == Lex(a) + Lex(b)
  {
    hide Lex;
    assert a + " " + b == a + (" " + b);
    LexAppend(a, " " + b);
    LexSpace(b);
  }

  lemma LexWord(w: string)
    requires IsWord(w)
    ensures Lex(w) == [Word(w)]
  {
    SkipWhileStopsAt(w, 1, WordChar, |w|);
    assert w[..|w|] == w;
    assert Lex(w[|w|..]) == [];
  }

  lemma LexOpen(b: string)
    ensures Lex("(" + b) == [LParen] + Lex(b)
  {
    assert ("(" + b)[1..] == b;
  }

  lemma LexClose()
    ensures Lex(")") == [RParen]
  {
    assert ")"[1..] == "";
  }

  lemma LexComma(b: string)
    ensures Lex("," + b) == [Comma] + Lex(b)
  {
    assert ("," + b)[1..] == b;
  }

  lemma LexCmp(op: string)
    requires op == "=" || op == "!=" || op == "<" || op == "<=" || op == ">" || op == ">="
    ensures Lex(op) == [Cmp(op)] && NoTick(op)
  {
    assert |op| == 1 ==> op == [op[0]];
    assert |op| == 2 ==> op == [op[0], op[1]];
    assert Lex(op[|op|..]) == [];
  }

  lemma LexNumber(digits: string, b: string)
    requires digits != "" && AllDigits(digits) && (b == "" || !Digit(b[0]))
    ensures Lex("$" + digits + b) == [Param(Number(digits))] + Lex(b)
  {
    var s := "$" + digits + b;
    var e := 1 + |digits|;
    assert forall i :: 1 <= i < e ==> s[i] == digits[i - 1];
    SkipWhileStopsAt(s, 1, Digit, e);
    assert s[1..e] == digits && s[e..] == b;
  }

  lemma LexCast(b: string)
    ensures Lex("::" + b) == [Cast] + Lex(b)
  {
    assert ("::" + b)[2..] == b;
  }

  lemma LexLiteral(t: string, b: string)
    requires NoTick(t)
    ensures Lex("'" + t + "'" + b) == [Lit(t)] + Lex(b)
  {
    var s := "'" + t + "'" + b;
    var e := 1 + |t|;
    assert forall i :: 1 <= i < e ==> s[i] == t[i - 1];
    SkipWhileStopsAt(s, 1, NotTick, e);
    assert s[1..e] == t && s[e + 1..] == b;
  }

  lemma LexAnd(a: string, kw: string, b: string)
    requires NoTick(a) && IsWord(kw)
    ensures Lex(a + (" " + kw + " ") + b) == Lex(a) + ([Word(kw)] + Lex(b))
  {
    hide Lex;
    assert a + (" " + kw + " ") + b == a + " " + (kw + " " + b);
    LexSpaced(a, kw + " " + b);
    assert NoTick(kw);
    LexSpaced(kw, b);
    LexWord(kw);
  }
}
