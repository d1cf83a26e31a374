/** Fully parenthesised token texts of SQL conditions, and what the reader makes of them: a text
    is read back as its condition exactly when no group in it is empty. */
module SqlTokens {
  import opened Prelude
  import opened Sql

  // ---------------------------------------------------------------- printing

  function OperandToks(o: Operand): seq<Token> {
    match o
    case TextLit(t) => [Lit(t)]
    case ParamRef(n, cast) =>
      match cast
      case None => [Param(n)]
      case Some(t) =>
        if t == "double precision" then [Param(n), Cast, Word("double"), Word("precision")]
        else [Param(n), Cast, Word(t)]
  }

  function ItemsTail(os: seq<Operand>): seq<Token> {
    if os == [] then [] else [Comma] + (OperandToks(os[0]) + ItemsTail(os[1..]))
  }

  function ItemsToks(os: seq<Operand>): seq<Token>
    requires os != []
  {
    OperandToks(os[0]) + ItemsTail(os[1..])
  }

  function TestToks(p: Predicate): seq<Token>
    requires PredOk(p)
  {
    match p
    case Compare(_, op, rhs) => [Cmp(op)] + OperandToks(rhs)
    case InList(_, negated, items) =>
      (if negated then [Word("NOT"), Word("IN"), LParen] else [Word("IN"), LParen]) + (ItemsToks(items) + [RParen])
    case Between(_, lo, hi) => [Word("BETWEEN")] + (OperandToks(lo) + ([Word("AND")] + OperandToks(hi)))
    case Matches(_, ignoreCase, rhs) => [Word(if ignoreCase then "ILIKE" else "LIKE")] + OperandToks(rhs)
    case IsNull(_, negated) =>
      if negated then [Word("IS"), Word("NOT"), Word("NULL")] else [Word("IS"), Word("NULL")]
  }

  function ExprToks(e: Expr): seq<Token>
    requires ExprOk(e)
    decreases e, 0
  {
    match e
    case Pred(p) => [Word(p.col)] + TestToks(p)
    case All(es) => [LParen] + (GroupToks(es, "AND") + [RParen])
    case Any(es) => [LParen] + (GroupToks(es, "OR") + [RParen])
  }

  function GroupToks(es: seq<Expr>, kw: string): seq<Token>
    requires AllOk(es)
    decreases es, 2
  {
    if es == [] then [] else ExprToks(es[0]) + GroupTail(es[1..], kw)
  }

  function GroupTail(es: seq<Expr>, kw: string): seq<Token>
    requires AllOk(es)
    decreases es, 1
  {
    if es == [] then [] else [Word(kw)] + (ExprToks(es[0]) + GroupTail(es[1..], kw))
  }

  // ---------------------------------------------------------------- which conditions

  predicate OperandOk(o: Operand) { o.ParamRef? && o.cast.Some? ==> o.cast.value != "double" }

  predicate PredOk(p: Predicate) {
    && !Keyword(p.col)
    && match p
       case Compare(_, _, rhs) => OperandOk(rhs)
       case InList(_, _, items) => items != [] && forall i :: 0 <= i < |items| ==> OperandOk(items[i])
       case Between(_, lo, hi) => OperandOk(lo) && OperandOk(hi)
       case Matches(_, _, rhs) => OperandOk(rhs)
       case IsNull(_, _) => true
  }

  predicate ExprOk(e: Expr)
    decreases e, 0
  {
    match e
    case Pred(p) => PredOk(p)
    case All(es) => AllOk(es)
    case Any(es) => AllOk(es)
  }

  predicate AllOk(es: seq<Expr>)
    decreases es, 1
  {
    es == [] || (ExprOk(es[0]) && AllOk(es[1..]))
  }

  predicate NoEmptyGroup(e: Expr)
    decreases e, 0
  {
    match e
    case Pred(_) => true
    case All(es) => es != [] && NoneEmpty(es)
    case Any(es) => es != [] && NoneEmpty(es)
  }

  predicate NoneEmpty(es: seq<Expr>)
    decreases es, 1
  {
    es == [] || (NoEmptyGroup(es[0]) && NoneEmpty(es[1..]))
  }

  /** The condition with one-member groups replaced by their member. */
  function Norm(e: Expr): Expr
    decreases e, 0
  {
    match e
    case Pred(_) => e
    case All(es) => Collect(NormAll(es), true)
    case Any(es) => Collect(NormAll(es), false)
  }

  function NormAll(es: seq<Expr>): (r: seq<Expr>)
    ensures |r| == |es|
    decreases es, 1
  {
    if es == [] then [] else [Norm(es[0])] + NormAll(es[1..])
  }

  function Collect(es: seq<Expr>, conj: bool): Expr {
    if |es| == 1 then es[0] else if conj then All(es) else Any(es)
  }

  // ---------------------------------------------------------------- predicates

  predicate NoCast(rest: seq<Token>) { !Starts(rest, Cast) }

  /** What can follow a condition inside a text. */
  predicate Follows(rest: seq<Token>) {
    rest == [] || rest[0] == Word("AND") || rest[0] == Word("OR") || rest[0] == RParen
  }

  /** The end of a group or of the whole text. */
  predicate Closes(rest: seq<Token>) { rest == [] || rest[0] == RParen }

  lemma OperandReads(o: Operand, rest: seq<Token>)
    requires OperandOk(o) && NoCast(rest)
    ensures ReadOperand(OperandToks(o) + rest) == Got(o, rest)
  {
    hide Starts;
    var front := OperandToks(o);
    var ts := front + rest;
    if o.ParamRef? {
      assert ts[0] == front[0] == Param(o.n);
      if o.cast.None? {
        assert !Starts(ts[1..], Cast) by { assert ts[1..] == rest; }
      } else {
        CastStarts(ts, front, rest);
        assert ts[2] == front[2];
        if o.cast.value == "double precision" {
          assert ts[3] == front[3];
        }
      }
    }
  }

  lemma CastStarts(ts: seq<Token>, front: seq<Token>, rest: seq<Token>)
    requires ts == front + rest && |front| >= 2 && front[1] == Cast
    ensures Starts(ts[1..], Cast)
  {
    assert ts[1..][0] == ts[1];
  }

  lemma {:induction false} ItemsRead(o: Operand, os: seq<Operand>, rest: seq<Token>, acc: seq<Operand>)
    requires OperandOk(o) && forall i :: 0 <= i < |os| ==> OperandOk(os[i])
    ensures ReadOperands(OperandToks(o) + (ItemsTail(os) + ([RParen] + rest)), acc) == Got(acc + [o] + os, rest)
    decreases |os|
  {
    hide OperandToks, ReadOperand, OperandOk;
    if os == [] {
      AppendNil(acc + [o]);
      assert ItemsTail(os) + ([RParen] + rest) == [RParen] + rest;
      OperandReads(o, [RParen] + rest);
    } else {
      var more := OperandToks(os[0]) + (ItemsTail(os[1..]) + ([RParen] + rest));
      assert ItemsTail(os) + ([RParen] + rest) == [Comma] + more by {
        Assoc([Comma], OperandToks(os[0]) + ItemsTail(os[1..]), [RParen] + rest);
        Assoc(OperandToks(os[0]), ItemsTail(os[1..]), [RParen] + rest);
      }
      OperandReads(o, [Comma] + more);
      ItemsRead(os[0], os[1..], rest, acc + [o]);
      MoveHead(acc + [o], os);
    }
  }

  lemma BetweenReads(p: Predicate, rest: seq<Token>)
    requires PredOk(p) && p.Between? && NoCast(rest)
    ensures ReadTest(p.col, TestToks(p) + rest) == Got(p, rest)
  {
    hide OperandToks, ReadOperand, OperandOk;
    var hiPart := OperandToks(p.hi) + rest;
    var loPart := OperandToks(p.lo) + ([Word("AND")] + hiPart);
    assert TestToks(p) + rest == [Word("BETWEEN")] + loPart by {
      Assoc([Word("BETWEEN")], OperandToks(p.lo) + ([Word("AND")] + OperandToks(p.hi)), rest);
      Assoc(OperandToks(p.lo), [Word("AND")] + OperandToks(p.hi), rest);
      Assoc([Word("AND")], OperandToks(p.hi), rest);
    }
    OperandReads(p.lo, [Word("AND")] + hiPart);
    OperandReads(p.hi, rest);
  }

  lemma InListReads(p: Predicate, rest: seq<Token>)
    requires PredOk(p) && p.InList?
    ensures ReadTest(p.col, TestToks(p) + rest) == Got(p, rest)
  {
    hide OperandToks, ItemsTail, ReadOperands, OperandOk;
    var head := if p.negated then [Word("NOT"), Word("IN"), LParen] else [Word("IN"), LParen];
    var body := OperandToks(p.items[0]) + (ItemsTail(p.items[1..]) + ([RParen] + rest));
    var ts := TestToks(p) + rest;
    assert ts == head + body by {
      Assoc(head, ItemsToks(p.items) + [RParen], rest);
      Assoc(ItemsToks(p.items), [RParen], rest);
      Assoc(OperandToks(p.items[0]), ItemsTail(p.items[1..]), [RParen] + rest);
    }
    ItemsRead(p.items[0], p.items[1..], rest, []);
    assert [] + [p.items[0]] + p.items[1..] == p.items;
  }

  lemma TestReads(p: Predicate, rest: seq<Token>)
    requires PredOk(p) && NoCast(rest)
    ensures ReadTest(p.col, TestToks(p) + rest) == Got(p, rest)
  {
    hide OperandToks, ReadOperand, OperandOk, ItemsTail, ReadOperands;
    match p
    case Compare(_, op, rhs) =>
      Assoc([Cmp(op)], OperandToks(rhs), rest);
      OperandReads(rhs, rest);
    case Matches(_, ignoreCase, rhs) =>
      var w := Word(if ignoreCase then "ILIKE" else "LIKE");
      Assoc([w], OperandToks(rhs), rest);
      OperandReads(rhs, rest);
    case IsNull(_, _) => 
    case Between(_, _, _) => BetweenReads(p, rest);
    case InList(_, _, _) => InListReads(p, rest);
  }

  lemma PredReads(p: Predicate, rest: seq<Token>)
    requires PredOk(p) && NoCast(rest)
    ensures ReadPrimary(ExprToks(Pred(p)) + rest) == Got(Pred(p), rest)
  {
    hide TestToks, ReadTest;
    TestReads(p, rest);
    assert TestToks(p) + rest != [];
    Assoc([Word(p.col)], TestToks(p), rest);
  }

  // ---------------------------------------------------------------- groups

  lemma GroupTailFollows(es: seq<Expr>, kw: string, rest: seq<Token>)
    requires AllOk(es) && (kw == "AND" || kw == "OR") && Follows(rest)
    ensures Follows(GroupTail(es, kw) + rest) && NoCast(GroupTail(es, kw) + rest)
    ensures es == [] ==> GroupTail(es, kw) + rest == rest
    ensures es != [] ==> GroupTail(es, kw) + rest == [Word(kw)] + (ExprToks(es[0]) + (GroupTail(es[1..], kw) + rest))
  {
    hide ExprToks, AllOk;
    if es != [] {
      AllOkParts(es);
      Assoc([Word(kw)], ExprToks(es[0]) + GroupTail(es[1..], kw), rest);
      Assoc(ExprToks(es[0]), GroupTail(es[1..], kw), rest);
    }
  }

  lemma AllOkParts(es: seq<Expr>)
    requires es != [] && AllOk(es)
    ensures ExprOk(es[0]) && AllOk(es[1..])
  {
  }

  lemma GroupUnwrap(es: seq<Expr>, kw: string, rest: seq<Token>)
    requires AllOk(es) && (kw == "AND" || kw == "OR")
    ensures Starts([LParen] + (GroupToks(es, kw) + [RParen]) + rest, LParen)
    ensures ([LParen] + (GroupToks(es, kw) + [RParen]) + rest)[1..] == GroupToks(es, kw) + ([RParen] + rest)
    ensures es != [] ==> GroupToks(es, kw) + ([RParen] + rest)
                         == ExprToks(es[0]) + (GroupTail(es[1..], kw) + ([RParen] + rest))
    ensures es == [] ==> GroupToks(es, kw) + ([RParen] + rest) == [RParen] + rest
  {
    hide ExprToks, GroupTail, AllOk;
    Assoc([LParen], GroupToks(es, kw) + [RParen], rest);
    Assoc(GroupToks(es, kw), [RParen], rest);
    if es != [] {
      AllOkParts(es);
      Assoc(ExprToks(es[0]), GroupTail(es[1..], kw), [RParen] + rest);
    }
  }

  /** A condition at the front of a text is read as itself, whatever follows it. */
  lemma {:induction false} PrimaryReads(e: Expr, rest: seq<Token>)
    requires ExprOk(e) && NoEmptyGroup(e) && Follows(rest)
    ensures ReadPrimary(ExprToks(e) + rest) == Got(Norm(e), rest)
    decreases e, 0
  {
    hide GroupToks, GroupTail, AllOk, NoneEmpty, NormAll, ReadPredicate, ReadAndRest, ReadOrRest, ReadAnd;
    match e
    case Pred(p) => PredReads(p, rest);
    case All(es) =>
      GroupUnwrap(es, "AND", rest);
      AndReads(es, [RParen] + rest);
      assert ReadOr(GroupToks(es, "AND") + ([RParen] + rest)) == Got(Norm(e), [RParen] + rest) by {
        SingleOr([RParen] + rest, Norm(e));
      }
    case Any(es) =>
      GroupUnwrap(es, "OR", rest);
      OrReads(es, [RParen] + rest);
  }

  lemma SingleOr(rest: seq<Token>, e: Expr)
    requires !Starts(rest, Word("OR"))
    ensures ReadOrRest(rest, [e]) == Got(e, rest)
  {
  }

  lemma SingleAnd(rest: seq<Token>, e: Expr)
    requires !Starts(rest, Word("AND"))
    ensures ReadAndRest(rest, [e]) == Got(e, rest)
  {
  }

  lemma NormAllParts(es: seq<Expr>)
    requires es != []
    ensures NormAll(es) == [Norm(es[0])] + NormAll(es[1..])
  {
  }

  lemma NoneEmptyParts(es: seq<Expr>)
    requires es != []
    ensures NoneEmpty(es) == (NoEmptyGroup(es[0]) && NoneEmpty(es[1..]))
  {
  }

  lemma {:induction false} AndReads(es: seq<Expr>, rest: seq<Token>)
    requires es != [] && AllOk(es) && NoneEmpty(es) && Follows(rest) && !Starts(rest, Word("AND"))
    ensures ReadAnd(GroupToks(es, "AND") + rest) == Got(Collect(NormAll(es), true), rest)
    decreases es, 1
  {
    hide ExprToks, GroupTail, AllOk, NoneEmpty, NormAll, ReadPrimary, NoEmptyGroup, ReadAndRest;
    AllOkParts(es);
    NoneEmptyParts(es);
    NormAllParts(es);
    GroupTailFollows(es[1..], "AND", rest);
    Assoc(ExprToks(es[0]), GroupTail(es[1..], "AND"), rest);
    PrimaryReads(es[0], GroupTail(es[1..], "AND") + rest);
    AndRestReads(es[1..], rest, [Norm(es[0])]);
  }

  lemma {:induction false} AndRestReads(es: seq<Expr>, rest: seq<Token>, acc: seq<Expr>)
    requires acc != [] && AllOk(es) && NoneEmpty(es) && Follows(rest) && !Starts(rest, Word("AND"))
    ensures ReadAndRest(GroupTail(es, "AND") + rest, acc) == Got(Collect(acc + NormAll(es), true), rest)
    decreases es, 0
  {
    hide ExprToks, GroupTail, AllOk, NoneEmpty, ReadPrimary, NoEmptyGroup, Norm;
    GroupTailFollows(es, "AND", rest);
    if es == [] {
      AppendNil(acc);
    } else {
      AllOkParts(es);
      NoneEmptyParts(es);
      GroupTailFollows(es[1..], "AND", rest);
      var more := GroupTail(es[1..], "AND") + rest;
      PrimaryReads(es[0], more);
      AndRestReads(es[1..], rest, acc + [Norm(es[0])]);
      NormAllParts(es);
      Assoc(acc, [Norm(es[0])], NormAll(es[1..]));
    }
  }

  lemma {:induction false} OrReads(es: seq<Expr>, rest: seq<Token>)
    requires es != [] && AllOk(es) && NoneEmpty(es) && Closes(rest)
    ensures ReadOr(GroupToks(es, "OR") + rest) == Got(Collect(NormAll(es), false), rest)
    decreases es, 1
  {
    hide ExprToks, GroupTail, AllOk, NoneEmpty, NormAll, ReadPrimary, NoEmptyGroup, ReadAndRest, ReadOrRest;
    AllOkParts(es);
    NoneEmptyParts(es);
    NormAllParts(es);
    GroupTailFollows(es[1..], "OR", rest);
    Assoc(ExprToks(es[0]), GroupTail(es[1..], "OR"), rest);
    var more := GroupTail(es[1..], "OR") + rest;
    PrimaryReads(es[0], more);
    SingleAnd(more, Norm(es[0]));
    OrRestReads(es[1..], rest, [Norm(es[0])]);
  }

  lemma {:induction false} OrRestReads(es: seq<Expr>, rest: seq<Token>, acc: seq<Expr>)
    requires acc != [] && AllOk(es) && NoneEmpty(es) && Closes(rest)
    ensures ReadOrRest(GroupTail(es, "OR") + rest, acc) == Got(Collect(acc + NormAll(es), false), rest)
    decreases es, 0
  {
    hide ExprToks, GroupTail, AllOk, NoneEmpty, ReadPrimary, NoEmptyGroup, Norm, ReadAndRest;
    GroupTailFollows(es, "OR", rest);
    if es == [] {
      AppendNil(acc);
    } else {
      AllOkParts(es);
      NoneEmptyParts(es);
      GroupTailFollows(es[1..], "OR", rest);
      var more := GroupTail(es[1..], "OR") + rest;
      PrimaryReads(es[0], more);
      SingleAnd(more, Norm(es[0]));
      OrRestReads(es[1..], rest, acc + [Norm(es[0])]);
      NormAllParts(es);
      Assoc(acc, [Norm(es[0])], NormAll(es[1..]));
    }
  }

  // ---------------------------------------------------------------- empty groups are unreadable

  /** An empty group anywhere makes the reader fail, whatever follows. */
  lemma {:induction false} PrimaryFails(e: Expr, rest: seq<Token>)
    requires ExprOk(e) && !NoEmptyGroup(e) && Follows(rest)
    ensures ReadPrimary(ExprToks(e) + rest) == Stuck
    decreases e, 0
  {
    hide GroupToks, GroupTail, AllOk, NoneEmpty, ReadAndRest, ReadOrRest, ReadAnd;
    var es := e.parts;
    var kw := if e.All? then "AND" else "OR";
    GroupUnwrap(es, kw, rest);
    if es == [] {
      assert ReadPrimary([RParen] + rest) == Stuck;
      assert ReadOr([RParen] + rest) == Stuck by { StuckUp([RParen] + rest); }
    } else {
      GroupFails(es, kw, [RParen] + rest);
    }
  }

  lemma StuckUp(ts: seq<Token>)
    requires ReadPrimary(ts) == Stuck
    ensures ReadAnd(ts) == Stuck && ReadOr(ts) == Stuck
  {
  }

  lemma {:induction false} GroupFails(es: seq<Expr>, kw: string, rest: seq<Token>)
    requires es != [] && AllOk(es) && !NoneEmpty(es) && (kw == "AND" || kw == "OR") && Closes(rest)
    ensures ReadOr(GroupToks(es, kw) + rest) == Stuck
    decreases es, 1
  {
    hide ExprToks, GroupTail, AllOk, NoneEmpty, ReadPrimary, NoEmptyGroup, ReadAndRest, ReadOrRest, Norm;
    AllOkParts(es);
    NoneEmptyParts(es);
    GroupTailFollows(es[1..], kw, rest);
    Assoc(ExprToks(es[0]), GroupTail(es[1..], kw), rest);
    var more := GroupTail(es[1..], kw) + rest;
    if NoEmptyGroup(es[0]) {
      PrimaryReads(es[0], more);
      if kw == "OR" {
        SingleAnd(more, Norm(es[0]));
      }
      TailFails(es[1..], kw, rest, [Norm(es[0])]);
    } else {
      PrimaryFails(es[0], more);
      StuckUp(ExprToks(es[0]) + more);
    }
  }

  lemma {:induction false} TailFails(es: seq<Expr>, kw: string, rest: seq<Token>, acc: seq<Expr>)
    requires acc != [] && AllOk(es) && !NoneEmpty(es) && (kw == "AND" || kw == "OR") && Closes(rest)
    ensures kw == "AND" ==> ReadAndRest(GroupTail(es, kw) + rest, acc) == Stuck
    ensures kw == "OR" ==> ReadOrRest(GroupTail(es, kw) + rest, acc) == Stuck
    decreases es, 0
  {
    hide ExprToks, GroupTail, AllOk, ReadPrimary, NoEmptyGroup, Norm;
    GroupTailFollows(es, kw, rest);
    assert es != [];
    AllOkParts(es);
    NoneEmptyParts(es);
    GroupTailFollows(es[1..], kw, rest);
    var more := GroupTail(es[1..], kw) + rest;
    if NoEmptyGroup(es[0]) {
      PrimaryReads(es[0], more);
      if kw == "OR" {
        SingleAnd(more, Norm(es[0]));
      }
      TailFails(es[1..], kw, rest, acc + [Norm(es[0])]);
    } else {
      PrimaryFails(es[0], more);
      StuckUp(ExprToks(es[0]) + more);
    }
  }
}
