/** Ordering by a bitwise AND: `ORDER BY (property & value) asc|desc`, one
    order-by term per column the property resolves to. */
module BitAndOrder {
  import opened SqlText
  import opened Host

  /** The order's property and direction (held by the host's `Order` base)
      and the mask. */
  datatype Order = Order(propertyName: string, ascending: bool, value: Int32)

  /** `asc(property, value)`. */
  function Asc(property: string, value: Int32): (o: Order)
    ensures o.ascending
    ensures o.propertyName == property && o.value == value
  {
    Order(property, true, value)
  }

  /** `desc(property, value)`. */
  function Desc(property: string, value: Int32): (o: Order)
    ensures !o.ascending
    ensures o.propertyName == property && o.value == value
  {
    Order(property, false, value)
  }

  /** The masked expression for one column: the column, ` & `, the mask
      as a decimal literal (not a bound parameter), in parentheses. */
  function MaskExpression(column: string, value: int): (r: string)
    ensures |r| == |column| + |DecimalString(value)| + 5
    ensures r[..|column| + 4] == "(" + column + " & " && r[|r| - 1] == ')'
  {
    "(" + column + " & " + DecimalString(value) + ")"
  }

  /** Between the column's ` & ` and the closing parenthesis stands the
      mask's decimal text, which reads back as the mask, and the expression
      brings no placeholder and no comma beyond those of the column name. */
  lemma MaskExpressionFaithful(column: string, value: int)
    ensures var r := MaskExpression(column, value);
      r[|column| + 4..|r| - 1] == DecimalString(value)
    ensures var r := MaskExpression(column, value);
      ParseDecimal(r[|column| + 4..|r| - 1]) == value
    ensures '?' in MaskExpression(column, value) <==> '?' in column
    ensures ',' in MaskExpression(column, value) <==> ',' in column
  {
    var r := MaskExpression(column, value);
    assert r[|column| + 4..|r| - 1] == DecimalString(value);
    DecimalRoundTrip(value);
  }

  /** The renderer's output for each column's masked expression, in
      resolution order, each with no collation, the order's direction and the
      default null precedence. */
  function OrderTerms(columns: seq<string>, value: int, ascending: bool, dialect: Dialect,
                      nulls: NullPrecedence): (r: seq<string>)
    ensures |r| == |columns|
    ensures forall i :: 0 <= i < |columns| ==>
      r[i] == dialect.renderOrderByElement(MaskExpression(columns[i], value), None, Direction(ascending), nulls)
    decreases |columns|
  {
    var n := |columns|;
    if n == 0 then []
    else
      OrderTerms(columns[..n - 1], value, ascending, dialect, nulls)
      + [dialect.renderOrderByElement(MaskExpression(columns[n - 1], value), None, Direction(ascending), nulls)]
  }

  /** The order's terms under `ctx`: its property's columns, its mask,
      direction and the default null precedence. */
  function Terms(o: Order, ctx: Context): (r: seq<string>)
    ensures |r| == |ctx.columnsOf(o.propertyName)|
  {
    OrderTerms(ctx.columnsOf(o.propertyName), o.value, o.ascending, ctx.dialect, ctx.defaultNullPrecedence)
  }

  /** The order-by fragment the order compiles to under `ctx`. The property's
      SQL types do not take part. */
  function OrderBy(o: Order, ctx: Context): (r: string)
    ensures |ctx.columnsOf(o.propertyName)| == 0 ==> r == ""
    ensures |ctx.columnsOf(o.propertyName)| == 1 ==>
      r == ctx.dialect.renderOrderByElement(MaskExpression(ctx.columnsOf(o.propertyName)[0], o.value), None,
                                            Direction(o.ascending), ctx.defaultNullPrecedence)
  {
    Join(Terms(o, ctx), ", ")
  }

  /** `toSqlString`: builds each column's masked expression, renders it and
      appends it, with ", " after every term but the last. */
  method ToSqlString(o: Order, ctx: Context) returns (sql: string)
    ensures sql == OrderBy(o, ctx)
    ensures |ctx.columnsOf(o.propertyName)| == 0 ==> sql == ""
  {
    var columns := ctx.columnsOf(o.propertyName);
    var sqlTypes := ctx.sqlTypesOf(o.propertyName);
    var fragment := "";
    var i := 0;
    while i < |columns|
      invariant 0 <= i <= |columns|
      invariant fragment == JoinedSoFar(Terms(o, ctx)[..i], |columns|, ", ")
    {
      var expression := "";
      expression := expression + "(";
      expression := expression + columns[i];
      expression := expression + " & ";
      expression := expression + DecimalString(o.value);
      expression := expression + ")";
      var term := ctx.dialect.renderOrderByElement(
        expression, None, if o.ascending then "asc" else "desc", ctx.defaultNullPrecedence);
      TermsStep(o, ctx, i, expression, term);
      fragment := fragment + term;
      if i < |columns| - 1 {
        fragment := fragment + ", ";
      }
      i := i + 1;
    }
    assert Terms(o, ctx)[..i] == Terms(o, ctx);
    sql := fragment;
  }

  /** One step of the loop of `toSqlString`. */
  lemma TermsStep(o: Order, ctx: Context, i: nat, expression: string, term: string)
    requires i < |ctx.columnsOf(o.propertyName)|
    requires expression == "(" + ctx.columnsOf(o.propertyName)[i] + " & " + DecimalString(o.value) + ")"
    requires term == ctx.dialect.renderOrderByElement(expression, None, Direction(o.ascending), ctx.defaultNullPrecedence)
    ensures JoinedSoFar(Terms(o, ctx)[..i + 1], |ctx.columnsOf(o.propertyName)|, ", ")
         == JoinedSoFar(Terms(o, ctx)[..i], |ctx.columnsOf(o.propertyName)|, ", ")
            + term + (if i < |ctx.columnsOf(o.propertyName)| - 1 then ", " else "")
  {
    var terms := Terms(o, ctx);
    assert expression == MaskExpression(ctx.columnsOf(o.propertyName)[i], o.value);
    JoinedSoFarStep(terms[..i], terms[i], |terms|, ", ");
    assert terms[..i + 1] == terms[..i] + [terms[i]];
  }

  /** No term carries a bound parameter: when neither the column names nor
      the renderer introduce a `?`, the fragment has none. */
  lemma {:induction false} NoPlaceholders(o: Order, ctx: Context)
    requires forall i :: 0 <= i < |ctx.columnsOf(o.propertyName)| ==> '?' !in ctx.columnsOf(o.propertyName)[i]
    requires forall e :: '?' !in e ==>
      '?' !in ctx.dialect.renderOrderByElement(e, None, Direction(o.ascending), ctx.defaultNullPrecedence)
    ensures '?' !in OrderBy(o, ctx)
  {
    var terms := Terms(o, ctx);
    NoPlaceholderInJoin(terms);
  }

  lemma {:induction false} NoPlaceholderInJoin(xs: seq<string>)
    requires forall k :: 0 <= k < |xs| ==> '?' !in xs[k]
    ensures '?' !in Join(xs, ", ")
    decreases |xs|
  {
    if |xs| > 1 {
      NoPlaceholderInJoin(xs[..|xs| - 1]);
    }
  }

  /** N columns give N comma-separated terms: with comma-free column names
      and a renderer that adds no comma, the fragment has exactly N - 1. */
  lemma OneTermPerColumn(o: Order, ctx: Context)
    requires |ctx.columnsOf(o.propertyName)| > 0
    requires forall i :: 0 <= i < |ctx.columnsOf(o.propertyName)| ==> ',' !in ctx.columnsOf(o.propertyName)[i]
    requires forall e :: ',' !in e ==>
      ',' !in ctx.dialect.renderOrderByElement(e, None, Direction(o.ascending), ctx.defaultNullPrecedence)
    ensures CountChar(OrderBy(o, ctx), ',') == |ctx.columnsOf(o.propertyName)| - 1
  {
    var terms := Terms(o, ctx);
    CommasInJoin(terms);
  }

  /** `desc("flags", 8)` over a property resolving to `flags_col`: one term,
      the renderer's output for `(flags_col & 8)` in descending order. */
  lemma DescendingExample(ctx: Context)
    requires ctx.columnsOf("flags") == ["flags_col"]
    ensures OrderBy(Desc("flags", 8), ctx)
         == ctx.dialect.renderOrderByElement("(flags_col & 8)", None, "desc", ctx.defaultNullPrecedence)
  {
    assert MaskExpression("flags_col", 8) == "(flags_col & 8)";
  }
}
