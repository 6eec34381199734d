/** What the three compilers take from the host query framework, reduced to
    plain values: the column resolution of a criteria query, the dialect's
    order-by renderer and lower-casing function, the configured default null
    precedence, and typed parameter values with their positional binding. */
module Host {
  import opened SqlText

  /** A Java `int`. */
  type Int32 = x: int | -0x8000_0000 <= x < 0x8000_0000

  datatype Option<T> = None | Some(value: T)

  /** Hibernate's null-ordering policy (NONE, FIRST, LAST), passed through
      to the renderer unchanged. */
  datatype NullPrecedence = NullsNone | NullsFirst | NullsLast

  /** `Dialect.renderOrderByElement(expression, collation, order, nulls)`. */
  type OrderByRenderer = (string, Option<string>, string, NullPrecedence) -> string

  datatype Dialect = Dialect(lowercaseFunction: string, renderOrderByElement: OrderByRenderer)

  /** The results of `CriteriaQuery.getColumnsUsingProjection` and of
      `getTypeUsingProjection(...).sqlTypes(factory)` per property name, the
      factory's dialect, and `Settings.getDefaultNullPrecedence()`. */
  datatype Context = Context(
    columnsOf: string -> seq<string>,
    sqlTypesOf: string -> seq<int>,
    dialect: Dialect,
    defaultNullPrecedence: NullPrecedence)

  /** `java.sql.Types` codes of the character types. */
  const CHAR: int := 1
  const VARCHAR: int := 12
  const LONGVARCHAR: int := -1

  predicate IsCharacterType(sqlType: int)
    ensures IsCharacterType(sqlType) <==> sqlType in {-1, 1, 12}
  {
    sqlType == VARCHAR || sqlType == CHAR || sqlType == LONGVARCHAR
  }

  /** The order keyword handed to the renderer. */
  function Direction(ascending: bool): (r: string)
    ensures r == "asc" <==> ascending
    ensures r == "desc" <==> !ascending
  {
    if ascending then "asc" else "desc"
  }

  datatype ParameterType = IntegerType

  /** Hibernate's `TypedValue`: a parameter value tagged with its type. */
  datatype TypedValue = TypedValue(parameterType: ParameterType, value: Int32)

  /** A textual reference semantics for positional binding: the k-th `?`
      of the statement text is replaced by the decimal text of the k-th typed
      value; placeholders left without a value stay as they are. (A driver
      binds the values separately; the text only shows which value lands
      where.) */
  function Bind(sql: string, values: seq<TypedValue>): string
    decreases |sql|
  {
    if |sql| == 0 then ""
    else if sql[0] == '?' && |values| > 0 then
      DecimalString(values[0].value) + Bind(sql[1..], values[1..])
    else [sql[0]] + Bind(sql[1..], values)
  }

  /** Text without placeholders is copied through binding untouched and
      consumes no value. */
  lemma {:induction false} BindPlainPrefix(a: string, b: string, values: seq<TypedValue>)
    requires '?' !in a
    ensures Bind(a + b, values) == a + Bind(b, values)
    decreases |a|
  {
    if |a| > 0 {
      assert (a + b)[0] == a[0];
      assert (a + b)[1..] == a[1..] + b;
      BindPlainPrefix(a[1..], b, values);
    } else {
      assert a + b == b;
    }
  }

  /** A placeholder at the head of the text consumes the first value. */
  lemma BindPlaceholder(b: string, v: TypedValue, rest: seq<TypedValue>)
    ensures Bind("?" + b, [v] + rest) == DecimalString(v.value) + Bind(b, rest)
  {
    assert ("?" + b)[1..] == b;
    assert ([v] + rest)[1..] == rest;
  }
}
