/** The ORDER BY text of a list query: read back as SQL it names, in the order asked for, the
    column and direction of every sort key. */
module OrderBy {
  import opened Prelude
  import opened Filter
  import opened FilterMeaning
  import opened SqlText
  import Sql
  import Rsql

  // ---------------------------------------------------------------- a reader

  datatype Key = Key(column: string, desc: bool)

  /** column [ASC | DESC] (',' column [ASC | DESC])* */
  function ReadKeys(ts: seq<Sql.Token>, acc: seq<Key>): Option<seq<Key>>
    decreases |ts|
  {
    if ts == [] || !ts[0].Word? || Sql.Keyword(ts[0].text) then None
    else
      var named := |ts| > 1 && (ts[1] == Sql.Word("ASC") || ts[1] == Sql.Word("DESC"));
      var keys := acc + [Key(ts[0].text, named && ts[1] == Sql.Word("DESC"))];
      var rest := if named then ts[2..] else ts[1..];
      if rest == [] then Some(keys)
      else if rest[0] == Sql.Comma then ReadKeys(rest[1..], keys)
      else None
  }

  /** The keys of an ORDER BY clause; an empty text has none. */
  function ReadOrder(text: string): Option<seq<Key>> {
    var ts := Sql.Lex(text);
    if ts == [] then Some([])
    else if |ts| >= 2 && ts[0] == Sql.Word("ORDER") && ts[1] == Sql.Word("BY") then ReadKeys(ts[2..], [])
    else None
  }

  // ---------------------------------------------------------------- what the text should say

  function KeyOf(fields: seq<FieldSpec>, s: SortSpec): Key
    requires Find(fields, s.field).Some?
  {
    Key(Find(fields, s.field).value.column, s.desc)
  }

  function KeysOf(fields: seq<FieldSpec>, sort: seq<SortSpec>): seq<Key>
    requires SortAccepted(fields, sort)
  {
    seq(|sort|, i requires 0 <= i < |sort| => KeyOf(fields, sort[i]))
  }

  function KeyText(k: Key): string { k.column + " " + (if k.desc then "DESC" else "ASC") }

  function KeyTexts(ks: seq<Key>): seq<string> { seq(|ks|, i requires 0 <= i < |ks| => KeyText(ks[i])) }

  function KeyToks(ks: seq<Key>): seq<Sql.Token>
    requires ks != []
  {
    [Sql.Word(ks[0].column), Sql.Word(if ks[0].desc then "DESC" else "ASC")]
    + if |ks| == 1 then [] else [Sql.Comma] + KeyToks(ks[1..])
  }

  predicate KeysOk(ks: seq<Key>) { forall i :: 0 <= i < |ks| ==> ColumnOk(ks[i].column) }

  // ---------------------------------------------------------------- proofs

  lemma {:induction false} PartsAreTexts(fields: seq<FieldSpec>, sort: seq<SortSpec>)
    requires SortAccepted(fields, sort)
    ensures SortParts(fields, sort) == Ok(KeyTexts(KeysOf(fields, sort)))
  {
    if sort != [] {
      var n := |sort| - 1;
      assert forall i :: 0 <= i < n ==> sort[..n][i] == sort[i];
      PartsAreTexts(fields, sort[..n]);
      var last := KeyText(KeyOf(fields, sort[n]));
      assert " DESC" == " " + "DESC" && " ASC" == " " + "ASC";
      assert last == KeyOf(fields, sort[n]).column + (if sort[n].desc then " DESC" else " ASC");
      assert KeyTexts(KeysOf(fields, sort)) == KeyTexts(KeysOf(fields, sort[..n])) + [last];
    }
  }

  lemma KeyLex(k: Key)
    requires ColumnOk(k.column)
    ensures Sql.Lex(KeyText(k)) == [Sql.Word(k.column), Sql.Word(if k.desc then "DESC" else "ASC")] && NoTick(KeyText(k))
  {
    hide Sql.Lex;
    TwoWords(k.column, if k.desc then "DESC" else "ASC");
  }

  lemma {:induction false} KeysLex(ks: seq<Key>)
    requires ks != [] && KeysOk(ks)
    ensures Sql.Lex(Join(KeyTexts(ks), ", ")) == KeyToks(ks)
    decreases |ks|
  {
    hide Sql.Lex, KeyText, ColumnOk;
    var texts := KeyTexts(ks);
    KeyLex(ks[0]);
    if |ks| > 1 {
      assert texts[1..] == KeyTexts(ks[1..]);
      KeysLex(ks[1..]);
      var rest := Join(texts[1..], ", ");
      assert texts[0] + ", " + rest == texts[0] + ("," + (" " + rest));
      LexAppend(texts[0], "," + (" " + rest));
      LexComma(" " + rest);
      LexSpace(rest);
    }
  }

  lemma {:induction false} KeysRead(ks: seq<Key>, acc: seq<Key>)
    requires ks != [] && KeysOk(ks)
    ensures ReadKeys(KeyToks(ks), acc) == Some(acc + ks)
    decreases |ks|
  {
    hide ColumnOk, IsWord;
    var ts := KeyToks(ks);
    ColumnIsNoKeyword(ks[0].column);
    assert ts[1] == Sql.Word(if ks[0].desc then "DESC" else "ASC");
    if |ks| == 1 {
      assert ts[2..] == [] && ks == [ks[0]];
    } else {
      assert ts[2..] == [Sql.Comma] + KeyToks(ks[1..]);
      ConsParts(Sql.Comma, KeyToks(ks[1..]));
      KeysRead(ks[1..], acc + [ks[0]]);
      MoveHead(acc, ks);
    }
  }

  lemma ColumnIsNoKeyword(col: string)
    requires ColumnOk(col)
    ensures !Sql.Keyword(col)
  {
  }

  lemma ClauseLex(text: string)
    ensures Sql.Lex(" ORDER BY " + text) == [Sql.Word("ORDER"), Sql.Word("BY")] + Sql.Lex(text)
  {
    hide Sql.Lex;
    assert " ORDER BY " + text == " " + ("ORDER BY" + " " + text);
    LexSpace("ORDER BY" + " " + text);
    assert "ORDER BY" == "ORDER" + " " + "BY";
    TwoWords("ORDER", "BY");
    LexSpaced("ORDER BY", text);
  }

  /** The ORDER BY text of an accepted sort is read back as exactly its keys: for each, in order,
      the column of the first field of that name, never a sensitive one, and the direction. */
  lemma {:induction false} OrderReads(filter: Option<Rsql.FilterNode>, sort: seq<SortSpec>, fields: seq<FieldSpec>, start: nat)
    requires FieldsOk(fields) && BuildSpec(filter, sort, fields, start).Ok?
    ensures SortAccepted(fields, sort)
    ensures ReadOrder(BuildSpec(filter, sort, fields, start).value.orderSql) == Some(KeysOf(fields, sort))
    ensures forall i :: 0 <= i < |sort| ==> Filterable(fields, KeysOf(fields, sort)[i].column)
  {
    hide Sql.Lex, Emit, Accepted, Params, SortParts, ReadKeys, KeyToks, KeyTexts, Find, ColumnOk;
    BuildAccepts(filter, sort, fields, start);
    PartsAreTexts(fields, sort);
    var ks := KeysOf(fields, sort);
    var texts := KeyTexts(ks);
    TextCount(ks);
    if ks == [] {
      EmptyLex();
    } else {
      KeysLex(ks);
      KeysRead(ks, []);
      ClauseLex(Join(texts, ", "));
      assert [] + ks == ks;
    }
  }

  lemma TextCount(ks: seq<Key>)
    ensures |KeyTexts(ks)| == |ks|
  {
  }

}
