/** The bitwise-AND criterion: `(property & value) op comparisonValue`,
    rendered with both integers as bound parameters. */
module BitAnd {
  import opened SqlText
  import opened Host

  /** The four final fields, stored unchanged by the constructor. */
  datatype Criterion = Criterion(
    propertyName: string,
    value: Int32,
    comparisonOperator: string,
    comparisonValue: Int32)

  /** `eq`: the AND result must equal `comparisonValue`. */
  function Eq(propertyName: string, value: Int32, comparisonValue: Int32): (c: Criterion)
    ensures c.comparisonOperator == "="
    ensures c.propertyName == propertyName && c.value == value && c.comparisonValue == comparisonValue
  {
    Criterion(propertyName, value, "=", comparisonValue)
  }

  /** `ne`: the AND result must differ from `comparisonValue`; the operator
      emitted is `<>`. */
  function Ne(propertyName: string, value: Int32, comparisonValue: Int32): (c: Criterion)
    ensures c.comparisonOperator == "<>"
    ensures c.propertyName == propertyName && c.value == value && c.comparisonValue == comparisonValue
  {
    Criterion(propertyName, value, "<>", comparisonValue)
  }

  /** The first column the property resolves to; the others are ignored. */
  function Column(c: Criterion, ctx: Context): (r: string)
    requires |ctx.columnsOf(c.propertyName)| > 0
    ensures r in ctx.columnsOf(c.propertyName)
  {
    ctx.columnsOf(c.propertyName)[0]
  }

  /** `toSqlString`: the masked comparison with two placeholders, added to
      whatever the column name and the operator themselves contain. */
  function ToSqlString(c: Criterion, ctx: Context): (r: string)
    requires |ctx.columnsOf(c.propertyName)| > 0
    ensures CountChar(r, '?') == 2 + CountChar(Column(c, ctx), '?') + CountChar(c.comparisonOperator, '?')
  {
    var head := "( " + Column(c, ctx);
    var middle := head + " & ? ) ";
    var tail := middle + c.comparisonOperator;
    CountCharAppend("( ", Column(c, ctx), '?');
    CountCharAppend(head, " & ? ) ", '?');
    CountCharAppend(middle, c.comparisonOperator, '?');
    CountCharAppend(tail, " ?", '?');
    tail + " ?"
  }

  /** `getTypedValues`: the mask, then the comparison value, both as
      integer parameters. Nothing here depends on column resolution. */
  function GetTypedValues(c: Criterion): (r: seq<TypedValue>)
    ensures |r| == 2
    ensures forall k :: 0 <= k < |r| ==> r[k].parameterType == IntegerType
    ensures r[0].value == c.value && r[1].value == c.comparisonValue
  {
    [TypedValue(IntegerType, c.value), TypedValue(IntegerType, c.comparisonValue)]
  }

  /** As many placeholders as bindings, when neither the column name nor the
      operator brings a `?` of its own. */
  lemma PlaceholdersMatchBindings(c: Criterion, ctx: Context)
    requires |ctx.columnsOf(c.propertyName)| > 0
    requires '?' !in Column(c, ctx) && '?' !in c.comparisonOperator
    ensures CountChar(ToSqlString(c, ctx), '?') == |GetTypedValues(c)|
  {
    CountCharZero(Column(c, ctx), '?');
    CountCharZero(c.comparisonOperator, '?');
  }

  /** Binding the values into the fragment in placeholder order gives the
      documented form `(column & value) op comparisonValue`: the mask lands in
      the AND and the comparison value after the operator. */
  lemma BindingFillsInOrder(c: Criterion, ctx: Context)
    requires |ctx.columnsOf(c.propertyName)| > 0
    requires '?' !in Column(c, ctx) && '?' !in c.comparisonOperator
    ensures Bind(ToSqlString(c, ctx), GetTypedValues(c))
         == "( " + Column(c, ctx) + " & " + DecimalString(c.value) + " ) "
            + c.comparisonOperator + " " + DecimalString(c.comparisonValue)
  {
    var vs := GetTypedValues(c);
    var a := "( " + Column(c, ctx) + " & ";
    var b := " ) " + c.comparisonOperator + " ";
    assert ToSqlString(c, ctx) == a + ("?" + (b + ("?" + "")));
    BindPlainPrefix(a, "?" + (b + ("?" + "")), vs);
    assert vs == [vs[0]] + [vs[1]];
    BindPlaceholder(b + ("?" + ""), vs[0], [vs[1]]);
    BindPlainPrefix(b, "?" + "", [vs[1]]);
    assert [vs[1]] == [vs[1]] + [];
    BindPlaceholder("", vs[1], []);
  }

  /** Only the first resolved column reaches the fragment. */
  lemma OnlyFirstColumnUsed(c: Criterion, ctx1: Context, ctx2: Context)
    requires |ctx1.columnsOf(c.propertyName)| > 0 && |ctx2.columnsOf(c.propertyName)| > 0
    requires ctx1.columnsOf(c.propertyName)[0] == ctx2.columnsOf(c.propertyName)[0]
    ensures ToSqlString(c, ctx1) == ToSqlString(c, ctx2)
  {
  }

  /** `eq("status", 256, 0)` over a property resolving to `status_col`. */
  lemma EqualToExample(ctx: Context)
    requires ctx.columnsOf("status") == ["status_col"]
    ensures ToSqlString(Eq("status", 256, 0), ctx) == "( status_col & ? ) = ?"
    ensures GetTypedValues(Eq("status", 256, 0))[0].value == 256 && GetTypedValues(Eq("status", 256, 0))[1].value == 0
  {
    var c := Eq("status", 256, 0);
    var col := Column(c, ctx);
    assert col == "status_col";
    calc {
      ToSqlString(c, ctx);
      "( " + col + " & ? ) " + "=" + " ?";
      "( status_col & ? ) = ?";
    }
  }
}
