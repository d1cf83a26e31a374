/** The WHERE/ORDER BY builder of `src/query/filter.rs` and the texts the repositories glue
    around it. */
module Filter {
  import opened Prelude
  import opened Rsql

  datatype FieldType = TextType | IntType | FloatType | BoolType | UuidType | DateType | TimestampType | TimeType

  datatype FieldSpec = FieldSpec(apiName: string, column: string, ty: FieldType, sensitive: bool)

  datatype SortSpec = SortSpec(field: string, desc: bool)

  datatype BuiltQuery = BuiltQuery(whereSql: string, orderSql: string, params: seq<string>)

  datatype BuildError =
    | UnknownField(name: string)
    | NotFilterable(name: string)
    | OperatorNotValid(name: string)
    | NeedsValues(name: string)
    | NeedsTwoValues(name: string, got: nat)
    | UnknownSort(name: string)
    | NotSortable(name: string)

  function CastOf(ty: FieldType): Option<string> {
    match ty
    case TextType => None
    case IntType => Some("bigint")
    case FloatType => Some("double precision")
    case BoolType => Some("boolean")
    case UuidType => Some("uuid")
    case DateType => Some("date")
    case TimestampType => Some("timestamptz")
    case TimeType => Some("time")
  }

  /** The first field of that name. */
  function Find(fields: seq<FieldSpec>, name: string): (r: Option<FieldSpec>)
    ensures r.Some? ==> r.value in fields && r.value.apiName == name
    ensures r.None? ==> forall f :: f in fields ==> f.apiName != name
  {
    if fields == [] then None
    else if fields[0].apiName == name then Some(fields[0])
    else Find(fields[1..], name)
  }

  function Lookup(fields: seq<FieldSpec>, name: string): Result<FieldSpec, BuildError> {
    match Find(fields, name)
    case None => Err(UnknownField(name))
    case Some(f) => if f.sensitive then Err(NotFilterable(name)) else Ok(f)
  }

  predicate Scalar(op: RsqlOp) { op.Gt? || op.Ge? || op.Lt? || op.Le? }

  predicate LikeFamily(op: RsqlOp) {
    op.Like? || op.Ilike? || op.Contains? || op.Starts? || op.Ends?
  }

  /** `op_valid_for_type`. */
  predicate OpValidForType(op: RsqlOp, ty: FieldType) {
    op.Null? || op.Eq? || op.Neq?
    || match ty
       case TextType => op.In? || op.Out? || LikeFamily(op)
       case BoolType => false
       case UuidType => op.In? || op.Out?
       case _ => Scalar(op) || op.Between? || op.In? || op.Out?
  }

  function First(values: seq<string>): string { if values == [] then "" else values[0] }

  // ---------------------------------------------------------------- texts

  function DigitChar(d: nat): char
    requires d < 10
  {
    (d + '0' as int) as char
  }

  function Decimal(n: nat): string {
    if n < 10 then [DigitChar(n)] else Decimal(n / 10) + [DigitChar(n % 10)]
  }

  function Placeholder(n: nat, cast: Option<string>): string {
    match cast
    case None => "$" + Decimal(n)
    case Some(t) => "$" + Decimal(n) + "::" + t
  }

  function Placeholders(n: nat, count: nat, cast: Option<string>): seq<string> {
    seq(count, i requires 0 <= i => Placeholder(n + i, cast))
  }

  lemma OnePlaceholderMore(n: nat, count: nat, cast: Option<string>)
    ensures Placeholders(n, count + 1, cast) == Placeholders(n, count, cast) + [Placeholder(n + count, cast)]
    ensures Placeholders(n, 0, cast) == []
  {
  }

  function CmpSymbol(op: RsqlOp): string {
    match op
    case Neq => "!=" case Gt => ">" case Ge => ">=" case Lt => "<" case Le => "<=" case _ => "="
  }

  function LeafCast(op: RsqlOp, ty: FieldType): Option<string> {
    if LikeFamily(op) then None else CastOf(ty)
  }

  /** The value bound by a one-value operator. */
  function BoundText(op: RsqlOp, v: string): string {
    match op
    case Contains => "%" + v + "%"
    case Starts => v + "%"
    case Ends => "%" + v
    case _ => v
  }

  /** The parameters a leaf pushes, in order. */
  function LeafParams(op: RsqlOp, values: seq<string>): seq<string> {
    if op.Null? then [] else if TakesList(op) then values else [BoundText(op, First(values))]
  }

  /** The text of an accepted leaf whose first placeholder is `n`. */
  function LeafText(col: string, op: RsqlOp, cast: Option<string>, count: nat, n: nat): string {
    match op
    case Null(b) => if b then col + " " + "IS NULL" else col + " " + "IS NOT NULL"
    case In => col + " " + ("IN" + " " + ("(" + (Join(Placeholders(n, count, cast), ", ") + ")")))
    case Out => col + " " + ("NOT IN" + " " + ("(" + (Join(Placeholders(n, count, cast), ", ") + ")")))
    case Between =>
      col + " " + ("BETWEEN" + " " + (Placeholder(n, cast) + " " + ("AND" + " " + Placeholder(n + 1, cast))))
    case Like => col + " " + ("LIKE" + " " + Placeholder(n, cast))
    case Ilike => col + " " + ("ILIKE" + " " + Placeholder(n, cast))
    case Contains => col + " " + ("ILIKE" + " " + Placeholder(n, cast))
    case Starts => col + " " + ("ILIKE" + " " + Placeholder(n, cast))
    case Ends => col + " " + ("ILIKE" + " " + Placeholder(n, cast))
    case _ => col + " " + (CmpSymbol(op) + " " + Placeholder(n, cast))
  }

  /** A text and the parameters it binds. */
  datatype Emitted = Emitted(text: string, params: seq<string>)

  datatype EmittedAll = EmittedAll(texts: seq<string>, params: seq<string>)

  function EmitLeaf(fields: seq<FieldSpec>, field: string, op: RsqlOp, values: seq<string>, n: nat):
    Result<Emitted, BuildError>
  {
    match Lookup(fields, field)
    case Err(e) => Err(e)
    case Ok(spec) =>
      if !OpValidForType(op, spec.ty) then Err(OperatorNotValid(field))
      else if (op.In? || op.Out?) && values == [] then Err(NeedsValues(field))
      else if op.Between? && |values| != 2 then Err(NeedsTwoValues(field, |values|))
      else Ok(Emitted(LeafText(spec.column, op, LeafCast(op, spec.ty), |values|, n), LeafParams(op, values)))
  }

  function Emit(fields: seq<FieldSpec>, node: FilterNode, n: nat): Result<Emitted, BuildError>
    decreases node, 0
  {
    match node
    case Leaf(field, op, values) => EmitLeaf(fields, field, op, values, n)
    case And(cs) =>
      (match EmitAll(fields, cs, n)
       case Err(e) => Err(e)
       case Ok(all) => Ok(Emitted("(" + (Join(all.texts, " AND ") + ")"), all.params)))
    case Or(cs) =>
      (match EmitAll(fields, cs, n)
       case Err(e) => Err(e)
       case Ok(all) => Ok(Emitted("(" + (Join(all.texts, " OR ") + ")"), all.params)))
  }

  /** The children left to right, the first failure winning. */
  function EmitAll(fields: seq<FieldSpec>, nodes: seq<FilterNode>, n: nat): Result<EmittedAll, BuildError>
    decreases nodes, 1
  {
    if nodes == [] then Ok(EmittedAll([], []))
    else
      match Emit(fields, nodes[0], n)
      case Err(e) => Err(e)
      case Ok(first) =>
        match EmitAll(fields, nodes[1..], n + |first.params|)
        case Err(e) => Err(e)
        case Ok(rest) => Ok(EmittedAll([first.text] + rest.texts, first.params + rest.params))
  }

  function SortPart(fields: seq<FieldSpec>, s: SortSpec): Result<string, BuildError> {
    match Find(fields, s.field)
    case None => Err(UnknownSort(s.field))
    case Some(f) =>
      if f.sensitive then Err(NotSortable(s.field)) else Ok(f.column + (if s.desc then " DESC" else " ASC"))
  }

  function SortParts(fields: seq<FieldSpec>, sort: seq<SortSpec>): Result<seq<string>, BuildError> {
    if sort == [] then Ok([])
    else
      match SortParts(fields, sort[..|sort| - 1])
      case Err(e) => Err(e)
      case Ok(parts) =>
        match SortPart(fields, sort[|sort| - 1])
        case Err(e) => Err(e)
        case Ok(part) => Ok(parts + [part])
  }

  function OrderText(parts: seq<string>): string {
    if parts == [] then "" else " ORDER BY " + Join(parts, ", ")
  }

  /** What `build` computes. */
  function BuildSpec(filter: Option<FilterNode>, sort: seq<SortSpec>, fields: seq<FieldSpec>, start: nat):
    Result<BuiltQuery, BuildError>
  {
    var emitted := if filter.None? then Ok(Emitted("", [])) else Emit(fields, filter.value, start);
    match emitted
    case Err(e) => Err(e)
    case Ok(em) =>
      match SortParts(fields, sort)
      case Err(e) => Err(e)
      case Ok(parts) => Ok(BuiltQuery(em.text, OrderText(parts), em.params))
  }

  // ---------------------------------------------------------------- the stateful builder

  class Builder {
    const fields: seq<FieldSpec>
    var params: seq<string>
    var next: nat

    constructor (fields: seq<FieldSpec>, start: nat)
      ensures this.fields == fields && params == [] && next == start
    {
      this.fields := fields;
      params := [];
      next := start;
    }

    /** The builder pushed exactly `pushed` and moved its counter past it. */
    twostate predicate Pushed(pushed: seq<string>)
      reads this
    {
      params == old(params) + pushed && next == old(next) + |pushed|
    }

    method Ph(value: string, cast: Option<string>) returns (text: string)
      modifies this
      ensures text == Placeholder(old(next), cast) && Pushed([value])
    {
      var n := next;
      next := next + 1;
      params := params + [value];
      text := match cast
        case Some(t) => "$" + Decimal(n) + "::" + t
        case None => "$" + Decimal(n);
    }

    method PhAll(values: seq<string>, cast: Option<string>) returns (texts: seq<string>)
      modifies this
      ensures texts == Placeholders(old(next), |values|, cast) && Pushed(values)
    {
      hide Placeholder, Placeholders;
      texts := [];
      AppendNil(params);
      OnePlaceholderMore(next, 0, cast);
      for i := 0 to |values|
        invariant next == old(next) + i && params == old(params) + values[..i]
        invariant texts == Placeholders(old(next), i, cast)
      {
        var text := Ph(values[i], cast);
        OnePlaceholderMore(old(next), i, cast);
        texts := texts + [text];
        assert values[..i + 1] == values[..i] + [values[i]];
        Assoc(old(params), values[..i], [values[i]]);
      }
      assert values[..|values|] == values;
    }

    /** A test against one placeholder. */
    method BuildTest(col: string, symbol: string, value: string, cast: Option<string>) returns (text: string)
      modifies this
      ensures text == col + " " + (symbol + " " + Placeholder(old(next), cast)) && Pushed([value])
    {
      hide Placeholder;
      var ph := Ph(value, cast);
      text := col + " " + (symbol + " " + ph);
    }

    /** The branch of `build_leaf` for the two list operators. */
    method BuildList(field: string, col: string, kw: string, values: seq<string>, cast: Option<string>)
      returns (r: Result<string, BuildError>)
      modifies this
      ensures if values == [] then r == Err(NeedsValues(field)) && Pushed([])
              else r == Ok(col + " " + (kw + " " + ("(" + (Join(Placeholders(old(next), |values|, cast), ", ") + ")")))) && Pushed(values)
    {
      hide Placeholder, Join;
      AppendNil(params);
      if values == [] { return Err(NeedsValues(field)); }
      var phs := PhAll(values, cast);
      r := Ok(col + " " + (kw + " " + ("(" + (Join(phs, ", ") + ")"))));
    }

    /** The branch for the range operator. */
    method BuildRange(field: string, col: string, values: seq<string>, cast: Option<string>) returns (r: Result<string, BuildError>)
      modifies this
      ensures if |values| != 2 then r == Err(NeedsTwoValues(field, |values|)) && Pushed([])
              else
                var between := Placeholder(old(next), cast) + " " + ("AND" + " " + Placeholder(old(next) + 1, cast));
                r == Ok(col + " " + ("BETWEEN" + " " + between)) && Pushed(values)
    {
      hide Placeholder;
      AppendNil(params);
      if |values| != 2 { return Err(NeedsTwoValues(field, |values|)); }
      var p1 := Ph(values[0], cast);
      var p2 := Ph(values[1], cast);
      assert [values[0]] + [values[1]] == values;
      r := Ok(col + " " + ("BETWEEN" + " " + (p1 + " " + ("AND" + " " + p2))));
    }

    /** The branches for the operators with one value. */
    method BuildScalar(col: string, op: RsqlOp, values: seq<string>, cast: Option<string>) returns (text: string)
      requires !op.Null? && !TakesList(op)
      modifies this
      ensures text == LeafText(col, op, if LikeFamily(op) then None else cast, |values|, old(next)) && Pushed(LeafParams(op, values))
    {
      hide Placeholder;
      if op.Like? {
        text := BuildTest(col, "LIKE", First(values), None);
      } else if op.Ilike? {
        text := BuildTest(col, "ILIKE", First(values), None);
      } else if op.Contains? {
        text := BuildTest(col, "ILIKE", "%" + First(values) + "%", None);
      } else if op.Starts? {
        text := BuildTest(col, "ILIKE", First(values) + "%", None);
      } else if op.Ends? {
        text := BuildTest(col, "ILIKE", "%" + First(values), None);
      } else {
        text := BuildTest(col, CmpSymbol(op), First(values), cast);
      }
    }

    method BuildLeaf(field: string, op: RsqlOp, values: seq<string>) returns (r: Result<string, BuildError>)
      modifies this
      ensures match EmitLeaf(fields, field, op, values, old(next))
              case Err(e) => r == Err(e)
              case Ok(em) => r == Ok(em.text) && Pushed(em.params)
    {
      hide Placeholder, Placeholders, Join, Find, CmpSymbol, First, BoundText, CastOf, Lookup, OpValidForType;
      var found := Lookup(fields, field);
      if found.Err? { return Err(found.error); }
      var spec := found.value;
      if !OpValidForType(op, spec.ty) { return Err(OperatorNotValid(field)); }
      var col := spec.column;
      var cast := if LikeFamily(op) then None else CastOf(spec.ty);
      match op {
        case Null(isNull) =>
          AppendNil(params);
          r := Ok(if isNull then col + " " + "IS NULL" else col + " " + "IS NOT NULL");
        case In => r := BuildList(field, col, "IN", values, cast);
        case Out => r := BuildList(field, col, "NOT IN", values, cast);
        case Between => r := BuildRange(field, col, values, cast);
        case _ =>
          var text := BuildScalar(col, op, values, cast);
          r := Ok(text);
      }
    }

    method BuildNode(node: FilterNode) returns (r: Result<string, BuildError>)
      modifies this
      ensures match Emit(fields, node, old(next))
              case Err(e) => r == Err(e)
              case Ok(em) => r == Ok(em.text) && Pushed(em.params)
      decreases node, 0
    {
      match node {
        case And(cs) =>
          var parts := BuildNodes(cs);
          if parts.Err? { return Err(parts.error); }
          r := Ok("(" + (Join(parts.value, " AND ") + ")"));
        case Or(cs) =>
          var parts := BuildNodes(cs);
          if parts.Err? { return Err(parts.error); }
          r := Ok("(" + (Join(parts.value, " OR ") + ")"));
        case Leaf(field, op, values) =>
          r := BuildLeaf(field, op, values);
      }
    }

    /** `children.iter().map(..).collect()`: left to right, stopping at the first error. */
    method BuildNodes(nodes: seq<FilterNode>) returns (r: Result<seq<string>, BuildError>)
      modifies this
      ensures match EmitAll(fields, nodes, old(next))
              case Err(e) => r == Err(e)
              case Ok(all) => r == Ok(all.texts) && Pushed(all.params)
      decreases nodes, 1
    {
      hide Emit;
      if nodes == [] {
        AppendNil(params);
        return Ok([]);
      }
      ghost var before := params;
      var first := BuildNode(nodes[0]);
      if first.Err? { return Err(first.error); }
      var rest := BuildNodes(nodes[1..]);
      if rest.Err? { return Err(rest.error); }
      Assoc(before, Emit(fields, nodes[0], old(next)).value.params,
            EmitAll(fields, nodes[1..], old(next) + |Emit(fields, nodes[0], old(next)).value.params|).value.params);
      r := Ok([first.value] + rest.value);
    }
  }

  method Build(filter: Option<FilterNode>, sort: seq<SortSpec>, fields: seq<FieldSpec>, start: nat)
    returns (r: Result<BuiltQuery, BuildError>)
    ensures r == BuildSpec(filter, sort, fields, start)
  {
    var b := new Builder(fields, start);
    var whereSql := "";
    if filter.Some? {
      var w := b.BuildNode(filter.value);
      if w.Err? { return Err(w.error); }
      whereSql := w.value;
      assert b.params == Emit(fields, filter.value, start).value.params;
    }
    var parts := BuildOrder(fields, sort);
    if parts.Err? { return Err(parts.error); }
    var orderSql := if parts.value == [] then "" else " ORDER BY " + Join(parts.value, ", ");
    r := Ok(BuiltQuery(whereSql, orderSql, b.params));
  }

  /** A failing sort prefix decides the whole list. */
  lemma {:induction false} SortFails(fields: seq<FieldSpec>, sort: seq<SortSpec>, k: nat)
    requires k <= |sort| && SortParts(fields, sort[..k]).Err?
    ensures SortParts(fields, sort) == SortParts(fields, sort[..k])
  {
    if k == |sort| {
      assert sort[..k] == sort;
    } else {
      var shorter := sort[..|sort| - 1];
      assert shorter[..k] == sort[..k];
      SortFails(fields, shorter, k);
    }
  }

  /** The ORDER BY loop of `build`. */
  method BuildOrder(fields: seq<FieldSpec>, sort: seq<SortSpec>) returns (r: Result<seq<string>, BuildError>)
    ensures r == SortParts(fields, sort)
  {
    var parts := [];
    for i := 0 to |sort|
      invariant SortParts(fields, sort[..i]) == Ok(parts)
    {
      assert sort[..i + 1][..i] == sort[..i] && sort[..i + 1][i] == sort[i];
      match Find(fields, sort[i].field) {
        case None =>
          SortFails(fields, sort, i + 1);
          return Err(UnknownSort(sort[i].field));
        case Some(f) =>
          if f.sensitive {
            SortFails(fields, sort, i + 1);
            return Err(NotSortable(sort[i].field));
          }
          parts := parts + [f.column + (if sort[i].desc then " DESC" else " ASC")];
      }
    }
    assert sort[..|sort|] == sort;
    r := Ok(parts);
  }
}
