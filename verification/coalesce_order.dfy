/** Ordering by the first non-null of several properties:
    `ORDER BY COALESCE(p1, p2, ...) asc|desc`, where each property may
    resolve to several columns and, when the order ignores case, character
    columns are lower-cased first. */
module CoalesceOrder {
  import opened SqlText
  import opened Host

  /** The property names, the direction, and the host `Order`'s ignore-case
      flag. */
  datatype Order = Order(properties: seq<string>, ascending: bool, ignoreCase: bool)

  /** `asc(properties...)`: an ascending order over the properties as given;
      ignoring case is off until the host's `ignoreCase()` switches it on. */
  function Asc(properties: seq<string>): (o: Order)
    ensures o.ascending && !o.ignoreCase
    ensures o.properties == properties
  {
    Order(properties, true, false)
  }

  /** `desc(properties...)`. */
  function Desc(properties: seq<string>): (o: Order)
    ensures !o.ascending && !o.ignoreCase
    ensures o.properties == properties
  {
    Order(properties, false, false)
  }

  /** `Arrays.toString` of a string array: the elements, in order, between
      brackets and separated by ", ". */
  function ArrayText(xs: seq<string>): (r: string)
    ensures |r| >= 2 && r[0] == '[' && r[|r| - 1] == ']'
    ensures r[1..|r| - 1] == Join(xs, ", ")
  {
    var r := "[" + Join(xs, ", ") + "]";
    assert r[1..|r| - 1] == Join(xs, ", ");
    r
  }

  /** The array text shows every element: a non-empty list of comma-free
      names is printed with exactly one comma between neighbours. */
  lemma ArrayTextCommas(xs: seq<string>)
    requires |xs| > 0
    requires forall k :: 0 <= k < |xs| ==> ',' !in xs[k]
    ensures CountChar(ArrayText(xs), ',') == |xs| - 1
  {
    CommasInJoin(xs);
    CountCharAppend("[", Join(xs, ", "), ',');
    CountCharAppend("[" + Join(xs, ", "), "]", ',');
  }

  /** `toString`: the keyword, the property list, then the direction. */
  function ToString(o: Order): (r: string)
    ensures |r| >= 15 && r[..10] == "COALESCE ["
    ensures r[9..|r| - |Direction(o.ascending)| - 1] == ArrayText(o.properties)
    ensures o.ascending <==> r[|r| - 4..] == " asc"
    ensures !o.ascending <==> r[|r| - 5..] == " desc"
  {
    var a := ArrayText(o.properties);
    var r := "COALESCE " + a + (if o.ascending then " asc" else " desc");
    assert r[9..|r| - |Direction(o.ascending)| - 1] == a;
    assert o.ascending ==> r[|r| - 5..] == "] asc";
    assert !o.ascending ==> r[|r| - 4..] == "desc";
    r
  }

  /** Every property's type list is at least as long as its column list:
      the type lookup is by column index. */
  predicate TypesCover(properties: seq<string>, ctx: Context)
  {
    forall k :: 0 <= k < |properties| ==>
      |ctx.columnsOf(properties[k])| <= |ctx.sqlTypesOf(properties[k])|
  }

  /** Whether column `i` is lower-cased; the types are looked at only when
      the order ignores case. */
  predicate Lowered(ignoreCase: bool, sqlTypes: seq<int>, i: nat)
    requires ignoreCase ==> i < |sqlTypes|
    ensures !ignoreCase ==> !Lowered(ignoreCase, sqlTypes, i)
    ensures Lowered(ignoreCase, sqlTypes, i) ==> sqlTypes[i] in {CHAR, VARCHAR, LONGVARCHAR}
  {
    ignoreCase && IsCharacterType(sqlTypes[i])
  }

  /** One COALESCE operand: the column, wrapped in the lower-casing function
      when `lower` holds. */
  function ColumnArgument(column: string, lower: bool, lowercaseFunction: string): (r: string)
    ensures !lower ==> r == column
    ensures lower ==> |r| == |lowercaseFunction| + |column| + 2
  {
    if lower then lowercaseFunction + "(" + column + ")" else column
  }

  /** A lowered operand is the function name, then the column in
      parentheses. */
  lemma LoweredArgumentShape(column: string, lowercaseFunction: string)
    ensures var r := ColumnArgument(column, true, lowercaseFunction);
      r[..|lowercaseFunction|] == lowercaseFunction && r[|lowercaseFunction|] == '('
      && r[|lowercaseFunction| + 1..|r| - 1] == column && r[|r| - 1] == ')'
  {
    var r := ColumnArgument(column, true, lowercaseFunction);
    assert r == lowercaseFunction + "(" + column + ")";
  }

  /** The operands one property contributes, one per column, in column
      order. */
  function FieldArguments(columns: seq<string>, sqlTypes: seq<int>, ignoreCase: bool,
                          lowercaseFunction: string): (r: seq<string>)
    requires ignoreCase ==> |columns| <= |sqlTypes|
    ensures |r| == |columns|
    decreases |columns|
  {
    var n := |columns|;
    if n == 0 then []
    else
      FieldArguments(columns[..n - 1], sqlTypes, ignoreCase, lowercaseFunction)
      + [ColumnArgument(columns[n - 1], Lowered(ignoreCase, sqlTypes, n - 1), lowercaseFunction)]
  }

  lemma {:induction false} FieldArgumentAt(columns: seq<string>, sqlTypes: seq<int>, ignoreCase: bool,
                                           lowercaseFunction: string, i: nat)
    requires ignoreCase ==> |columns| <= |sqlTypes|
    requires i < |columns|
    ensures FieldArguments(columns, sqlTypes, ignoreCase, lowercaseFunction)[i]
         == ColumnArgument(columns[i], Lowered(ignoreCase, sqlTypes, i), lowercaseFunction)
    decreases |columns|
  {
    var n := |columns|;
    if i < n - 1 {
      FieldArgumentAt(columns[..n - 1], sqlTypes, ignoreCase, lowercaseFunction, i);
    }
  }

  /** Column `i` appears as `lower(column)` exactly when the order ignores
      case and the column's type is a character type; otherwise verbatim. */
  lemma {:induction false} ColumnLoweredIff(columns: seq<string>, sqlTypes: seq<int>, ignoreCase: bool,
                         lowercaseFunction: string, i: nat)
    requires ignoreCase ==> |columns| <= |sqlTypes|
    requires i < |columns|
    ensures FieldArguments(columns, sqlTypes, ignoreCase, lowercaseFunction)[i]
            == lowercaseFunction + "(" + columns[i] + ")"
        <==> ignoreCase && IsCharacterType(sqlTypes[i])
    ensures !(ignoreCase && IsCharacterType(sqlTypes[i])) ==>
      FieldArguments(columns, sqlTypes, ignoreCase, lowercaseFunction)[i] == columns[i]
  {
    FieldArgumentAt(columns, sqlTypes, ignoreCase, lowercaseFunction, i);
  }

  /** When case matters, every column is used verbatim and the types are
      not consulted. */
  lemma {:induction false} CaseSensitiveColumnsVerbatim(columns: seq<string>, sqlTypes: seq<int>,
                                                        lowercaseFunction: string)
    ensures FieldArguments(columns, sqlTypes, false, lowercaseFunction) == columns
    decreases |columns|
  {
    var n := |columns|;
    if n > 0 {
      CaseSensitiveColumnsVerbatim(columns[..n - 1], sqlTypes, lowercaseFunction);
      assert columns == columns[..n - 1] + [columns[n - 1]];
    }
  }

  /** The operands of each property, in property order. */
  function Groups(properties: seq<string>, ctx: Context, ignoreCase: bool): (r: seq<seq<string>>)
    requires ignoreCase ==> TypesCover(properties, ctx)
    ensures |r| == |properties|
    decreases |properties|
  {
    var n := |properties|;
    if n == 0 then []
    else
      Groups(properties[..n - 1], ctx, ignoreCase)
      + [FieldArguments(ctx.columnsOf(properties[n - 1]), ctx.sqlTypesOf(properties[n - 1]), ignoreCase,
                        ctx.dialect.lowercaseFunction)]
  }

  /** What the inner loop builds for each property (`fragmentForField`):
      its operands joined by ", ". */
  function PropertyFragments(o: Order, ctx: Context): (r: seq<string>)
    requires o.ignoreCase ==> TypesCover(o.properties, ctx)
    ensures |r| == |o.properties|
  {
    JoinEach(Groups(o.properties, ctx, o.ignoreCase), ", ")
  }

  /** The COALESCE argument list: the property fragments joined by ", ". */
  function ArgumentList(o: Order, ctx: Context): (r: string)
    requires o.ignoreCase ==> TypesCover(o.properties, ctx)
    ensures |o.properties| == 0 ==> r == ""
    ensures |o.properties| == 1 ==>
      r == Join(FieldArguments(ctx.columnsOf(o.properties[0]), ctx.sqlTypesOf(o.properties[0]), o.ignoreCase,
                               ctx.dialect.lowercaseFunction), ", ")
  {
    if |o.properties| == 1 then
      assert o.properties[..0] == [];
      Join(PropertyFragments(o, ctx), ", ")
    else
      Join(PropertyFragments(o, ctx), ", ")
  }

  /** The compiled fragment: the literal `COALESCE(` followed by the
      renderer's output for the argument list and the closing parenthesis,
      rendered once with no collation, the order's direction and the
      default null precedence. */
  function CoalesceSql(o: Order, ctx: Context): (r: string)
    requires o.ignoreCase ==> TypesCover(o.properties, ctx)
    ensures |r| >= 9 && r[..9] == "COALESCE("
    ensures r[9..] == ctx.dialect.renderOrderByElement(
      ArgumentList(o, ctx) + ")", None, Direction(o.ascending), ctx.defaultNullPrecedence)
  {
    "COALESCE(" + ctx.dialect.renderOrderByElement(
      ArgumentList(o, ctx) + ")", None, Direction(o.ascending), ctx.defaultNullPrecedence)
  }

  /** `toSqlString`: a loop over the properties that appends each one's
      fragment (built by the inner loop, `FieldFragment`) and the separators
      to a builder, then one renderer call whose output follows the literal
      `COALESCE(`. */
  method ToSqlString(o: Order, ctx: Context) returns (sql: string)
    requires o.ignoreCase ==> TypesCover(o.properties, ctx)
    ensures sql == CoalesceSql(o, ctx)
  {
    var fragment := "";
    var expression := "";
    fragment := fragment + "COALESCE(";
    assert fragment == "COALESCE(";
    var properties := o.properties;
    var j := 0;
    while j < |properties|
      invariant 0 <= j <= |properties|
      invariant expression == JoinedSoFar(PropertyFragments(o, ctx)[..j], |properties|, ", ")
    {
      var propertyName := properties[j];
      var fragmentForField := FieldFragment(ctx.columnsOf(propertyName), ctx.sqlTypesOf(propertyName),
                                            o.ignoreCase, ctx.dialect.lowercaseFunction);
      PropertyFragmentsStep(o, ctx, j);
      expression := expression + fragmentForField;
      if j < |properties| - 1 {
        expression := expression + ", ";
      }
      j := j + 1;
    }
    assert PropertyFragments(o, ctx)[..j] == PropertyFragments(o, ctx);
    assert expression == ArgumentList(o, ctx);
    expression := expression + ")";
    fragment := fragment + ctx.dialect.renderOrderByElement(
      expression, None, if o.ascending then "asc" else "desc", ctx.defaultNullPrecedence);
    sql := fragment;
  }

  /** The inner loop of `toSqlString`: one property's columns, each wrapped
      in the lower-casing function when it is lowered, appended with ", "
      after all but the last. */
  method FieldFragment(columns: seq<string>, sqlTypes: seq<int>, ignoreCase: bool,
                       lowercaseFunction: string) returns (fragmentForField: string)
    requires ignoreCase ==> |columns| <= |sqlTypes|
    ensures fragmentForField == Join(FieldArguments(columns, sqlTypes, ignoreCase, lowercaseFunction), ", ")
  {
    ghost var args := FieldArguments(columns, sqlTypes, ignoreCase, lowercaseFunction);
    fragmentForField := "";
    var i := 0;
    while i < |columns|
      invariant 0 <= i <= |columns|
      invariant fragmentForField == JoinedSoFar(args[..i], |args|, ", ")
    {
      var expressionForField := "";
      var lower := false;
      if ignoreCase {
        var sqlType := sqlTypes[i];
        lower := sqlType == VARCHAR || sqlType == CHAR || sqlType == LONGVARCHAR;
      }
      assert lower == Lowered(ignoreCase, sqlTypes, i);
      if lower {
        expressionForField := expressionForField + lowercaseFunction + "(";
      }
      assert expressionForField == if lower then lowercaseFunction + "(" else "";
      expressionForField := expressionForField + columns[i];
      if lower {
        expressionForField := expressionForField + ")";
      }
      assert expressionForField == ColumnArgument(columns[i], lower, lowercaseFunction);
      FieldArgumentsStep(columns, sqlTypes, ignoreCase, lowercaseFunction, i);
      fragmentForField := fragmentForField + expressionForField;
      if i < |columns| - 1 {
        fragmentForField := fragmentForField + ", ";
      }
      i := i + 1;
    }
    assert args[..i] == args;
  }

  /** One step of the inner loop of `toSqlString`. */
  lemma FieldArgumentsStep(columns: seq<string>, sqlTypes: seq<int>, ignoreCase: bool,
                           lowercaseFunction: string, i: nat)
    requires ignoreCase ==> |columns| <= |sqlTypes|
    requires i < |columns|
    ensures var args := FieldArguments(columns, sqlTypes, ignoreCase, lowercaseFunction);
      JoinedSoFar(args[..i + 1], |args|, ", ")
      == JoinedSoFar(args[..i], |args|, ", ")
         + ColumnArgument(columns[i], Lowered(ignoreCase, sqlTypes, i), lowercaseFunction)
         + (if i < |columns| - 1 then ", " else "")
  {
    var args := FieldArguments(columns, sqlTypes, ignoreCase, lowercaseFunction);
    FieldArgumentAt(columns, sqlTypes, ignoreCase, lowercaseFunction, i);
    JoinedSoFarStep(args[..i], args[i], |args|, ", ");
    assert args[..i + 1] == args[..i] + [args[i]];
  }

  /** The operands of property `j`, joined, are the j-th part of the
      argument list. */
  lemma PartAt(properties: seq<string>, ctx: Context, ignoreCase: bool, j: nat)
    requires ignoreCase ==> TypesCover(properties, ctx)
    requires j < |properties|
    ensures JoinEach(Groups(properties, ctx, ignoreCase), ", ")[j]
         == Join(FieldArguments(ctx.columnsOf(properties[j]), ctx.sqlTypesOf(properties[j]), ignoreCase,
                                ctx.dialect.lowercaseFunction), ", ")
  {
    GroupAt(properties, ctx, ignoreCase, j);
  }

  lemma {:induction false} GroupAt(properties: seq<string>, ctx: Context, ignoreCase: bool, j: nat)
    requires ignoreCase ==> TypesCover(properties, ctx)
    requires j < |properties|
    ensures Groups(properties, ctx, ignoreCase)[j]
         == FieldArguments(ctx.columnsOf(properties[j]), ctx.sqlTypesOf(properties[j]), ignoreCase,
                           ctx.dialect.lowercaseFunction)
    decreases |properties|
  {
    var n := |properties|;
    if j < n - 1 {
      GroupAt(properties[..n - 1], ctx, ignoreCase, j);
    }
  }

  /** One step of the outer loop of `toSqlString`. */
  lemma PropertyFragmentsStep(o: Order, ctx: Context, j: nat)
    requires o.ignoreCase ==> TypesCover(o.properties, ctx)
    requires j < |o.properties|
    ensures JoinedSoFar(PropertyFragments(o, ctx)[..j + 1], |o.properties|, ", ")
         == JoinedSoFar(PropertyFragments(o, ctx)[..j], |o.properties|, ", ")
            + Join(FieldArguments(ctx.columnsOf(o.properties[j]), ctx.sqlTypesOf(o.properties[j]), o.ignoreCase,
                                  ctx.dialect.lowercaseFunction), ", ")
            + (if j < |o.properties| - 1 then ", " else "")
  {
    var parts := PropertyFragments(o, ctx);
    assert parts[j] == Join(FieldArguments(ctx.columnsOf(o.properties[j]), ctx.sqlTypesOf(o.properties[j]),
                                           o.ignoreCase, ctx.dialect.lowercaseFunction), ", ") by {
      PartAt(o.properties, ctx, o.ignoreCase, j);
    }
    assert parts[..j + 1] == parts[..j] + [parts[j]];
    JoinedSoFarStep(parts[..j], parts[j], |parts|, ", ");
  }

  /** The columns each property resolves to, in property order. */
  function ColumnGroups(properties: seq<string>, ctx: Context): (r: seq<seq<string>>)
    ensures |r| == |properties|
    decreases |properties|
  {
    var n := |properties|;
    if n == 0 then [] else ColumnGroups(properties[..n - 1], ctx) + [ctx.columnsOf(properties[n - 1])]
  }

  lemma {:induction false} CaseSensitiveGroups(properties: seq<string>, ctx: Context)
    ensures Groups(properties, ctx, false) == ColumnGroups(properties, ctx)
    decreases |properties|
  {
    var n := |properties|;
    if n > 0 {
      CaseSensitiveGroups(properties[..n - 1], ctx);
      CaseSensitiveColumnsVerbatim(ctx.columnsOf(properties[n - 1]), ctx.sqlTypesOf(properties[n - 1]),
                                   ctx.dialect.lowercaseFunction);
    }
  }

  /** Without ignore-case the argument list is made of the resolved columns
      alone, verbatim: the SQL types are never consulted. */
  lemma CaseSensitiveArgumentList(o: Order, ctx: Context)
    requires !o.ignoreCase
    ensures ArgumentList(o, ctx) == Join(JoinEach(ColumnGroups(o.properties, ctx), ", "), ", ")
  {
    CaseSensitiveGroups(o.properties, ctx);
  }

  /** When every property resolves to at least one column, the argument list
      is the operands of all properties, in property order and then column
      order, joined by ", ". */
  lemma ArgumentListFlat(o: Order, ctx: Context)
    requires o.ignoreCase ==> TypesCover(o.properties, ctx)
    requires forall k :: 0 <= k < |o.properties| ==> |ctx.columnsOf(o.properties[k])| > 0
    ensures ArgumentList(o, ctx) == Join(Flatten(Groups(o.properties, ctx, o.ignoreCase)), ", ")
  {
    var gs := Groups(o.properties, ctx, o.ignoreCase);
    forall k | 0 <= k < |gs| ensures |gs[k]| > 0 {
      GroupAt(o.properties, ctx, o.ignoreCase, k);
    }
    JoinFlatten(gs, ", ");
  }

  /** There is one operand per resolved column. */
  lemma {:induction false} OperandCount(properties: seq<string>, ctx: Context, ignoreCase: bool)
    requires ignoreCase ==> TypesCover(properties, ctx)
    ensures |Flatten(Groups(properties, ctx, ignoreCase))| == |Flatten(ColumnGroups(properties, ctx))|
    decreases |properties|
  {
    var n := |properties|;
    if n > 0 {
      OperandCount(properties[..n - 1], ctx, ignoreCase);
    }
  }

  /** Operands carry no comma when neither the column names nor the
      lower-casing function do. */
  lemma {:induction false} OperandsCommaFree(columns: seq<string>, sqlTypes: seq<int>, ignoreCase: bool, lowercaseFunction: string)
    requires ignoreCase ==> |columns| <= |sqlTypes|
    requires forall i :: 0 <= i < |columns| ==> ',' !in columns[i]
    requires ',' !in lowercaseFunction
    ensures forall i :: 0 <= i < |columns| ==>
      ',' !in FieldArguments(columns, sqlTypes, ignoreCase, lowercaseFunction)[i]
  {
    forall i | 0 <= i < |columns|
      ensures ',' !in FieldArguments(columns, sqlTypes, ignoreCase, lowercaseFunction)[i]
    {
      FieldArgumentAt(columns, sqlTypes, ignoreCase, lowercaseFunction, i);
    }
  }

  /** With comma-free names, the argument list holds exactly one separator
      fewer than there are resolved columns, provided every property resolves
      to at least one column. */
  lemma ArgumentListCommas(o: Order, ctx: Context)
    requires |o.properties| > 0
    requires o.ignoreCase ==> TypesCover(o.properties, ctx)
    requires forall k :: 0 <= k < |o.properties| ==> |ctx.columnsOf(o.properties[k])| > 0
    requires forall k, i :: 0 <= k < |o.properties| && 0 <= i < |ctx.columnsOf(o.properties[k])| ==>
      ',' !in ctx.columnsOf(o.properties[k])[i]
    requires ',' !in ctx.dialect.lowercaseFunction
    ensures CountChar(ArgumentList(o, ctx), ',') == |Flatten(ColumnGroups(o.properties, ctx))| - 1
  {
    var props := o.properties;
    var gs := Groups(props, ctx, o.ignoreCase);
    ArgumentListFlat(o, ctx);
    OperandCount(props, ctx, o.ignoreCase);
    forall k, i | 0 <= k < |gs| && 0 <= i < |gs[k]| ensures ',' !in gs[k][i] {
      GroupAt(props, ctx, o.ignoreCase, k);
      OperandsCommaFree(ctx.columnsOf(props[k]), ctx.sqlTypesOf(props[k]), o.ignoreCase,
                        ctx.dialect.lowercaseFunction);
    }
    FlattenAvoids(gs, ',');
    var n := |props|;
    GroupAt(props, ctx, o.ignoreCase, n - 1);
    assert Flatten(gs) == Flatten(gs[..n - 1]) + gs[n - 1];
    CommasInJoin(Flatten(gs));
  }

  /** For a renderer that only appends a suffix (a direction keyword, a
      nulls clause) to its argument, prefixing `COALESCE(` outside the call
      gives the same text as rendering the whole COALESCE expression. */
  lemma SuffixRendererSeesWholeExpression(o: Order, ctx: Context, suffix: string)
    requires o.ignoreCase ==> TypesCover(o.properties, ctx)
    requires forall e :: ctx.dialect.renderOrderByElement(e, None, Direction(o.ascending), ctx.defaultNullPrecedence)
                         == e + suffix
    ensures CoalesceSql(o, ctx)
         == ctx.dialect.renderOrderByElement("COALESCE(" + ArgumentList(o, ctx) + ")", None,
                                              Direction(o.ascending), ctx.defaultNullPrecedence)
  {
    var a := ArgumentList(o, ctx);
    var inner := ctx.dialect.renderOrderByElement(a + ")", None, Direction(o.ascending), ctx.defaultNullPrecedence);
    assert inner == a + ")" + suffix;
    assert "COALESCE(" + inner == "COALESCE(" + a + ")" + suffix;
  }

  /** A single character-typed column under ignore-case is lowered. */
  lemma SingleCharacterColumn(column: string, sqlType: int, lowercaseFunction: string)
    requires IsCharacterType(sqlType)
    ensures FieldArguments([column], [sqlType], true, lowercaseFunction) == [lowercaseFunction + "(" + column + ")"]
  {
    assert [column][..0] == [];
  }

  /** Ascending over `nickname` and `fullname`, ignoring case, both single
      VARCHAR columns, with `lower` as the dialect's function. */
  lemma IgnoreCaseExample(ctx: Context)
    requires ctx.columnsOf("nickname") == ["nickname_col"] && ctx.sqlTypesOf("nickname") == [VARCHAR]
    requires ctx.columnsOf("fullname") == ["fullname_col"] && ctx.sqlTypesOf("fullname") == [VARCHAR]
    requires ctx.dialect.lowercaseFunction == "lower"
    ensures ArgumentList(Asc(["nickname", "fullname"]).(ignoreCase := true), ctx)
         == "lower(nickname_col)" + ", " + "lower(fullname_col)"
  {
    var o := Asc(["nickname", "fullname"]).(ignoreCase := true);
    var parts := PropertyFragments(o, ctx);
    assert parts[0] == "lower(nickname_col)" by {
      SingleCharacterColumn("nickname_col", VARCHAR, "lower");
      GroupAt(o.properties, ctx, true, 0);
    }
    assert parts[1] == "lower(fullname_col)" by {
      SingleCharacterColumn("fullname_col", VARCHAR, "lower");
      GroupAt(o.properties, ctx, true, 1);
    }
    assert |parts| == 2;
    assert parts[..1] == [parts[0]];
    assert Join(parts[..1], ", ") == parts[0];
    assert ArgumentList(o, ctx) == parts[0] + ", " + parts[1];
  }
}
