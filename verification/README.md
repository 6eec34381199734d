# HibernateUtils SQL-fragment compilers, modelled in Dafny

HibernateUtils adds three expression types to Hibernate Criteria queries:

- `BitAnd` is a criterion `(property & value) op comparisonValue`. It renders with two bound
  parameters, the mask and the comparison value.
- `BitAndOrder` is an ordering `ORDER BY (property & value) asc|desc`. It yields one
  order-by term per column the property resolves to, with the mask written as a literal.
- `CoalesceOrder` is an ordering `ORDER BY COALESCE(p1, p2, ...) asc|desc` over several
  properties. Each property may resolve to several columns. When the order ignores case,
  character-typed columns are lower-cased.

Without Hibernate around them, all three are deterministic string assembly. The model makes
the host's services plain values (`Host.Context`, `Host.Dialect`):

- the column names and SQL type codes each property resolves to, as functions of the
  property name;
- the dialect's lower-casing function name;
- the dialect's `renderOrderByElement(expression, collation, order, nulls)`, kept
  uninterpreted as a function value;
- the default null precedence from the settings.

Files:

- `sql_text.dfy` (module `SqlText`): separator joins, matching what the StringBuilder loops
  produce; character counting; Java's `Integer.toString` (`DecimalString`) with a parser
  for reading it back.
- `host.dfy` (module `Host`): the context, `java.sql.Types` codes for character types,
  typed parameter values, and positional binding of values into placeholders (`Bind`).
  `Bind` is the reference semantics for "placeholders and bindings match".
- `bit_and.dfy`, `bit_and_order.dfy`, `coalesce_order.dfy`: one module per source class.
  `BitAnd` is pure functions. In the two orderings, `toSqlString` is a method whose loops
  append to builders, proved equal to a specification function. The lemmas are about
  those functions.

Points where the code's behaviour is easy to misread:

- `CoalesceOrder.toSqlString` appends the literal `COALESCE(` to its builder itself
  (CoalesceOrder.java:31). It then hands the renderer only the argument list and the
  closing parenthesis (CoalesceOrder.java:68-72), so the renderer never sees the whole
  COALESCE expression. `SuffixRendererSeesWholeExpression` shows the two readings agree
  for a renderer that only appends a suffix. A renderer that rewrites its argument sees
  the split.
- `BitAndOrder` builds `(col & 8)`: `(`, the column, ` & `, the mask, `)`, with no space
  inside the parentheses (BitAndOrder.java:34-38). `BitAnd` writes `( col & ? )`, with
  spaces (BitAnd.java:66).
- `BitAnd.ne` emits `<>`. Its doc comment says `!=` (BitAnd.java:55, 58).
- `CoalesceOrder.toSqlString` runs its loops over whatever it is given
  (CoalesceOrder.java:34, 41). An empty property list gives `COALESCE(` followed by the
  renderer's output for `)`. A property that resolves to no column contributes an empty
  operand, and its separator is still appended (CoalesceOrder.java:64-65), so the text
  reads `a, , b`.

## Model

| member | source | states |
|---|---|---|
| `BitAnd.Eq` | BitAnd.java:46-48 | `eq` stores the operator `=` and the property, mask and comparison value unchanged |
| `BitAnd.Ne` | BitAnd.java:57-59 | `ne` stores the operator `<>` (not `!=`) and the other three arguments unchanged |
| `BitAnd.Column` | BitAnd.java:64-66 | the column written into the fragment is one of those the property resolves to (the first; `OnlyFirstColumnUsed` shows later ones never matter) |
| `BitAnd.ToSqlString` | BitAnd.java:61-68 | the fragment built from the first resolved column holds exactly two `?` placeholders, plus any the column name or operator bring; at least one column must resolve |
| `BitAnd.GetTypedValues` | BitAnd.java:70-75 | exactly two values, both integer-typed: the mask first, the comparison value second; column resolution plays no part |
| `BitAnd.PlaceholdersMatchBindings` | BitAnd.java:64-74 | with no `?` in the column name or operator, the fragment has as many placeholders as there are bindings |
| `BitAnd.BindingFillsInOrder` | BitAnd.java:66-74 | binding the values in placeholder order gives `( column & value ) op comparisonValue`: the mask lands in the AND and the comparison value after the operator |
| `BitAnd.OnlyFirstColumnUsed` | BitAnd.java:64-66 | two resolutions with the same first column give the same fragment; later columns never matter |
| `BitAnd.EqualToExample` | BitAnd.java:46-74 | `eq("status", 256, 0)` on `status_col` renders `( status_col & ? ) = ?` with bindings 256 then 0 |
| `BitAndOrder.Asc` | BitAndOrder.java:61-63 | `asc` gives an ascending order with the property and mask unchanged |
| `BitAndOrder.Desc` | BitAndOrder.java:65-67 | `desc` gives a descending order with the property and mask unchanged |
| `BitAndOrder.MaskExpression` | BitAndOrder.java:33-38 | the expression starts with `(`, the column and ` & `, ends with `)`, and its length is that of the column plus the mask's decimal text plus five |
| `BitAndOrder.MaskExpressionFaithful` | BitAndOrder.java:33-38 | between ` & ` and `)` stands exactly the mask's decimal text, which reads back as the mask; the expression has a `?` or a comma only if the column name does |
| `BitAndOrder.OrderTerms` | BitAndOrder.java:32-47 | one term per column, in resolution order; term i is the renderer's output for column i's masked expression, with no collation, `asc` exactly when ascending, and the default null precedence |
| `BitAndOrder.OrderBy` | BitAndOrder.java:31-53 | the specification of the loop's text, the terms joined by `", "`: empty with no column, and exactly one renderer output for a single column |
| `BitAndOrder.ToSqlString` | BitAndOrder.java:26-54 | the loop's text is the terms joined by `", "`; with no column it is empty; the resolved type is fetched but takes no part |
| `BitAndOrder.NoPlaceholders` | BitAndOrder.java:33-47 | with `?`-free column names and a renderer that adds no `?`, the fragment has no bound parameter |
| `BitAndOrder.OneTermPerColumn` | BitAndOrder.java:31-53 | N resolved columns give N terms: with comma-free names and a renderer that adds no comma, the fragment has exactly N - 1 commas |
| `BitAndOrder.DescendingExample` | BitAndOrder.java:26-67 | `desc("flags", 8)` on `flags_col` is the renderer's output for `(flags_col & 8)` with `desc` |
| `Host.Direction` | BitAndOrder.java:44 | the renderer gets `asc` if and only if the order is ascending, and `desc` otherwise |
| `Host.IsCharacterType` | CoalesceOrder.java:46-48 | a type code counts as character data exactly when it is one of `LONGVARCHAR` (-1), `CHAR` (1) or `VARCHAR` (12) of `java.sql.Types` |
| `SqlText.DecimalString` | BitAndOrder.java:37 | the mask's text is canonical decimal: a leading minus sign exactly when the mask is negative and nowhere else, digits otherwise, no leading zero, and exactly `0` for 0; so it has no placeholder and no comma |
| `SqlText.DecimalRoundTrip` | BitAndOrder.java:37 | reading the mask's decimal text back gives the mask |
| `CoalesceOrder.Asc` | CoalesceOrder.java:83-85 | `asc` gives an ascending order over the names the list holds when it is called, with ignore-case off |
| `CoalesceOrder.Desc` | CoalesceOrder.java:87-89 | `desc` gives a descending order over the names the list holds when it is called, with ignore-case off |
| `CoalesceOrder.ArrayText` | CoalesceOrder.java:79 | the property list's text is the names, in order, joined by `", "` between `[` and `]` |
| `CoalesceOrder.ArrayTextCommas` | CoalesceOrder.java:79 | a non-empty list of comma-free names prints with exactly one comma between neighbours, so every name appears as its own item |
| `CoalesceOrder.ToString` | CoalesceOrder.java:77-81 | the text is `COALESCE `, then the property list's array text, then a space and the direction; it ends with ` asc` if and only if ascending, and with ` desc` if and only if descending |
| `CoalesceOrder.Lowered` | CoalesceOrder.java:43-49 | the `lower` flag is never set when case matters, and when set the column's type is CHAR, VARCHAR or LONGVARCHAR |
| `CoalesceOrder.ColumnArgument` | CoalesceOrder.java:51-58 | an unlowered operand is the column verbatim; a lowered one is two characters longer than the function name and the column together |
| `CoalesceOrder.LoweredArgumentShape` | CoalesceOrder.java:51-58 | a lowered operand is the lower-casing function's name, `(`, the column, `)` |
| `CoalesceOrder.FieldArguments` | CoalesceOrder.java:41-62 | a property contributes exactly one operand per resolved column (with `FieldArgumentAt`: operand i is column i, lowered or not) |
| `CoalesceOrder.FieldArgumentAt` | CoalesceOrder.java:41-62 | operand i of a property is its column i, lowered or not by the type at index i |
| `CoalesceOrder.ColumnLoweredIff` | CoalesceOrder.java:43-58 | column i becomes `lower(column)` if and only if ignore-case is on and its type is VARCHAR, CHAR or LONGVARCHAR; otherwise it appears verbatim |
| `CoalesceOrder.CaseSensitiveColumnsVerbatim` | CoalesceOrder.java:43-56 | with ignore-case off, a property's operands are its columns, whatever the types |
| `CoalesceOrder.CaseSensitiveArgumentList` | CoalesceOrder.java:34-66 | with ignore-case off, the argument list is built from the resolved columns alone, so the SQL types are never consulted |
| `CoalesceOrder.ArgumentListFlat` | CoalesceOrder.java:34-66 | when every property resolves to a column, the argument list is all operands in property order, then column order, joined by `", "` |
| `CoalesceOrder.OperandCount` | CoalesceOrder.java:34-62 | one operand per resolved column across all properties |
| `CoalesceOrder.OperandsCommaFree` | CoalesceOrder.java:51-58 | the operands add no comma beyond those of the column names and the lower-casing function |
| `CoalesceOrder.ArgumentList` | CoalesceOrder.java:34-66 | the `expression` builder's contents before `)`: empty for no property, and for one property exactly that property's operands joined by `", "` |
| `CoalesceOrder.ArgumentListCommas` | CoalesceOrder.java:34-66 | with a non-empty property list, every property resolving to a column, and comma-free names, the argument list has exactly (total columns - 1) commas |
| `CoalesceOrder.CoalesceSql` | CoalesceOrder.java:31-73 | the result begins with `COALESCE(`; the rest is one renderer output for the argument list followed by `)`, with no collation, the order's direction and the default null precedence |
| `CoalesceOrder.ToSqlString` | CoalesceOrder.java:26-74 | the outer loop over the properties, the separators and the single renderer call produce exactly `CoalesceSql`; the types must cover the columns only when ignore-case is on |
| `CoalesceOrder.FieldFragment` | CoalesceOrder.java:40-62 | the inner loop's builder holds the property's operands joined by `", "` |
| `CoalesceOrder.FieldArgumentsStep` | CoalesceOrder.java:41-61 | one pass of the inner loop appends column i's operand, lowered or not by its type, followed by `", "` unless it is the last column |
| `CoalesceOrder.SuffixRendererSeesWholeExpression` | CoalesceOrder.java:68-72 | if the renderer only appends a suffix, prefixing `COALESCE(` outside the call equals rendering the whole COALESCE expression |
| `CoalesceOrder.SingleCharacterColumn` | CoalesceOrder.java:43-58 | a lone character-typed column under ignore-case becomes `lower(column)` |
| `CoalesceOrder.IgnoreCaseExample` | CoalesceOrder.java:26-68 | ascending over `nickname` and `fullname` (VARCHAR columns), ignoring case, gives the argument list `lower(nickname_col), lower(fullname_col)` |

## Left out

- Hibernate's `Criteria`, `CriteriaQuery`, `SessionFactoryImplementor` and `Settings` are not part of this model. Their results (resolved columns, SQL type codes, the dialect, the default null precedence) are fields of `Host.Context`.
- `Dialect.renderOrderByElement` and `getLowercaseFunction` are uninterpreted values. Their output is not modelled, because it depends on the dialect.
- `TypedValue` and `IntegerType` are reduced to a type tag and a 32-bit value.
- Exceptions that Hibernate resolution throws (unknown property, missing dialect) are not modelled. The source does not catch them; it lets them propagate.
- `BitAnd.ToSqlString` requires at least one resolved column. The source reads `columns[0]` and fails with an index error on an empty array.
- `CoalesceOrder.ToSqlString` requires, when ignore-case is on, at least as many SQL types as columns for each property. The source indexes the type array by column index.
- BitAndOrder.java:57-59 (`toString`) is not modelled. It relies on Hibernate's `Order.toString`, which is not part of this model.
- CoalesceOrder.java:22 passes `properties.toString()` to the host as the property name. That is a Java array identity string, so it is not modelled.
- The host `Order`'s `ignoreCase()` setter is not part of this model. The flag is the `ignoreCase` field of `CoalesceOrder.Order`, and the factories leave it off.
- `CoalesceOrder.Asc`/`Desc`: the Java order keeps a reference to the caller's array (CoalesceOrder.java:23). If the caller later writes into that array, later `toSqlString` and `toString` calls show the new names. The model takes the list by value, so that aliasing is not captured.
- A null property array or a null element is not modelled.
- SQL execution, sessions and dialect portability are out of scope.
- BitAnd.java:32-38 (the constructor) stores its four arguments in final fields. It is the datatype constructor `BitAnd.Criterion`, so it has no member of its own.
- `BitAnd.ToSqlString`: the contract states the placeholder count, not the exact text. The exact shape is pinned by `BindingFillsInOrder` (after binding) and by `EqualToExample`.
