# insertOnDuplicateKey, modelled in Dafny

`Ijanki\DBAL\Connection::insertOnDuplicateKey` extends a Doctrine DBAL
connection with a bulk upsert for MySQL: it turns a table expression, a PHP
array of row-maps and an optional list of columns to update into one
`INSERT ... ON DUPLICATE KEY UPDATE` statement with `?` placeholders (the
statement form described by the MySQL 5.7 Reference Manual's page on
INSERT ... ON DUPLICATE KEY UPDATE) and the flat list of values
bound to those placeholders, then hands both to the inherited connection.

This project models the statement building and proves what it promises.

- `wrappers.dfy`: `Option` and `Result`.
- `strings.dfy`: PHP's `implode`, PHP's rendering of an int as a decimal
  string, and a character count used to count placeholders.
- `php.dfy`: PHP arrays as ordered lists of `Entry(key, val)`, keys being
  `IntKey` or `StrKey`, with `isset`, `array_keys`, `array_values` and the
  `%s` conversion of `sprintf`.
- `connection.dfy`: the builder. The routines that loop or accumulate in
  the PHP code (`buildQuestionMarks`, `buildValuesList`,
  `buildInsertOnDuplicateSql`) are methods proved equal to specification
  functions. So is `insertOnDuplicateKey`, which rebinds `$data` to
  `[$data]` before building. `getFirstRow` and `inLineArray` are
  functions. Thrown exceptions become `Err` values. Execution is not
  modelled: the result is `Statement(sql, params)`, the text and the values
  that would be passed to `prepare` and `execute`.
- `properties.dfy` and `binding.dfy`: lemmas about the specification
  functions.

What is proved, in short:

- the empty case;
- the wrapping of a single row;
- the error cases of `getFirstRow`;
- the exact layout of the statement;
- a parser reading the VALUES groups back into the row sizes, which shows
  there is one group per row, in order, with one `?` per value;
- the alignment between placeholders and bound values. Unless the table
  name, a column name (a key of the batch's first row) or the update
  specification itself contains a `?`, the statement holds exactly as many
  `?` as there are bound values. Unless the table name or a column name
  contains a `?`, row `i`'s `j`-th placeholder has (sizes of rows
  0..i-1) + `j` placeholders before it, and the parameter at that index is
  row `i`'s `j`-th value.

Three points where the code behaves otherwise than one might read it:

- The first row is the entry under key 0 (`list($first) = $data`), not the
  first entry in order.
- A single row is wrapped into a batch only when `isset($data[0])` is false.
  A positional row such as `[1, 'John']` is therefore rejected with
  "$data is not an array of array." (`PositionalRowIsRejected`). A batch
  whose element 0 is `null` is wrapped as if it were one row.
- The table expression is always put in backticks in the upsert form, even
  though the doc comment allows an already quoted expression. The empty
  form `INSERT INTO t () VALUES ()` does not quote it. No name or update
  expression is escaped, and the model adds no escaping.

## Model

| member | source | states |
|---|---|---|
| `Connection.InsertOnDuplicateKey` | Connection.php:24-42 | The method, which rebinds `$data` to `[$data]` when `$data[0]` is not set, returns exactly `Upsert`: the empty insert, the error raised while building, or the built SQL together with `inLineArray` of the batch |
| `ConnectionProperties.EmptyDataStatement` | Connection.php:26-28 | Empty `$data` gives `"INSERT INTO " + table + " () VALUES ()"`, with the table unquoted, and no bound values |
| `ConnectionProperties.FlatRowIsWrapped` | Connection.php:31-33 | When `$data` is non-empty and `$data[0]` is not set, the result is identical to calling with the one-row batch `[0 => $data]` |
| `ConnectionProperties.BatchIsUsedAsGiven` | Connection.php:31-39 | When `$data[0]` is set, `$data` is the batch, and the bound values are `inLineArray($data)` |
| `ConnectionProperties.PositionalRowIsRejected` | Connection.php:31-35 | A flat row whose key 0, wherever that entry stands, holds a non-null scalar is not wrapped and fails with "$data is not an array of array." |
| `Php.Lookup` | Connection.php:88 | `$a[$k]` is found exactly when some entry has key k, and then it is the value of the first such entry |
| `Php.IsSet` | Connection.php:31 | `isset($a[$k])` holds exactly when the first entry under key k exists and its value is not null |
| `Php.ArrayKeys` | Connection.php:60 | `array_keys($a)` is a list of a's keys, in a's order, under the keys 0, 1, 2, … |
| `Php.ArrayValues` | Connection.php:53 | `array_values($a)` has a's values, in a's order, and nothing else |
| `Php.IsNumericKey` | Connection.php:132 | A key taken as numeric is an integer key and prints as its decimal digits; any other key is a string key and prints verbatim |
| `Php.ValueString` | Connection.php:133-135 | `sprintf('%s')` gives a string value verbatim, an int in decimal, "" for null and false, "1" for true, "Array" for an array; only a string value can bring a `?` into the text |
| `Strings.Implode` | Connection.php:114-117 | `implode` of no parts is the empty string, and of a single part that part, with no separator |
| `Strings.ImplodeStartsWithFirst` | Connection.php:114-117 | The imploded text starts with the first part |
| `Strings.ImplodeCons` | Connection.php:114-117 | Imploding `[a] + rest` (rest non-empty) is `a`, the separator, then the implode of `rest` |
| `Strings.ImplodeConcat` | Connection.php:114-117 | Imploding two non-empty lists one after the other puts exactly one separator between their implodes |
| `Strings.CountImplode` | Connection.php:114-117 | A separator without character c adds no c: the c in the imploded text are exactly those of the parts |
| `Connection.GetFirstRow` | Connection.php:82-95 | Empty input fails with "Empty data."; every other failure is "$data is not an array of array."; a non-empty input succeeds exactly when the value under key 0, wherever that entry stands, is an array, and then returns that array unchanged |
| `Connection.InLineArray` | Connection.php:51-54 | The flattened values number exactly the sum of the row sizes |
| `BindingProperties.ParamsAlignWithRows` | Connection.php:51-54 | Value j of row i is at position (sizes of rows 0..i-1) + j of the flattened list |
| `BindingProperties.MarkOfValue` | Connection.php:58-63 | In the built statement, row i's j-th placeholder is a `?` preceded by exactly (sizes of rows 0..i-1) + j other `?`, when neither the table name nor a column name holds a `?` |
| `BindingProperties.PlaceholderBindsValue` | Connection.php:35-41 | For non-empty `$data`, with the same proviso, row i's j-th placeholder is a `?` of the statement with (sizes of rows 0..i-1) + j `?` before it, and the parameter at that index is row i's j-th value: each placeholder binds the value of its own row and column |
| `BindingProperties.BindingMatchesColumns` | Connection.php:35-39 | When every row has the first row's keys in the first row's order, there are rows × columns bound values, and the value at position i·columns + j is what row i stores under the j-th column of the column clause |
| `Connection.BuildQuestionMarks` | Connection.php:105-118 | The nested loops produce exactly `GroupsText` of the row sizes, or the TypeError of `count()` at the first row that is not an array |
| `ConnectionProperties.QuestionMarksCount` | Connection.php:105-118 | The groups text holds one `(` per row and, in all, as many `?` as the rows have values |
| `ConnectionProperties.MarkInPlaceholders` | Connection.php:109-114 | In the group of n values, the j-th `?` comes right after `(` and holds j `?` before it |
| `ConnectionProperties.GroupInGroupsText` | Connection.php:105-118 | Row i's group follows the groups of rows 0..i-1 and their separator, which together hold (sizes of rows 0..i-1) `?` |
| `ConnectionProperties.GroupsTextSplit` | Connection.php:107-117 | The groups text of all rows is that of rows 0..i-1, then `", "`, then that of rows i onward |
| `ConnectionProperties.QuestionMarksRoundTrip` | Connection.php:105-118 | Reading the groups text back as `(?,…)` groups separated by `", "` recovers the row sizes in order |
| `Connection.BuildValuesList` | Connection.php:127-140 | The loop produces exactly `ValuesList`: one assignment per entry, in entry order, joined by `", "` |
| `BindingProperties.NamedColumnsUpdate` | Connection.php:131-133 | A plain list of names yields `` `n` = VALUES(`n`) `` for each name and nothing else, in list order |
| `BindingProperties.ExpressionsVerbatim` | Connection.php:134-136 | Entries under string keys yield `key = value`, with both sides verbatim and unescaped |
| `Connection.BuildInsertOnDuplicateSql` | Connection.php:56-73 | The `.=` accumulation produces exactly `InsertSql`. The errors of `getFirstRow` come first, then that of `count()` |
| `BindingProperties.StatementLayout` | Connection.php:58-72 | The statement is ``"INSERT INTO `" + table + "`(" + columns + ") VALUES " + groups + " ON DUPLICATE KEY UPDATE " + updates``. `columns` quotes each of the first row's keys in backticks, joined by `,` (two backticks when the row is empty). `groups` is one group per row. `updates` is every first-row column set to `VALUES(col)` when `$updateColumns` is null or empty, and the given list otherwise |
| `BindingProperties.ColumnListQuotesEachName` | Connection.php:60 | For a non-empty list of names, joining them by "\`,\`" inside one pair of backticks is the same as wrapping each name in backticks and joining by `,` |
| `BindingProperties.DefaultUpdatesAllColumns` | Connection.php:66-67 | `buildValuesList(array_keys($first))` sets every column of the first row, in key order, to `VALUES(col)` |
| `BindingProperties.PlaceholdersMatchParams` | Connection.php:35-41 | If no `?` appears in the table name, in the column names (the keys of the batch's first row) or in the update specification, then the statement has exactly as many `?` as there are bound values |
| `BindingProperties.DocBlockExample` | Connection.php:13-16 | The two-row example of the doc comment gives ``INSERT INTO `t`(`id`,`name`) VALUES (?,?), (?,?) ON DUPLICATE KEY UPDATE `id` = VALUES(`id`), `name` = VALUES(`name`)`` with the values 1, "John", 2, "Mike" |
| `Strings.IntString` | Connection.php:60 | An integer key becomes a non-empty string: a minus sign exactly for negatives, then decimal digits without leading zeros that read back as the absolute value, so it contains no `?` and no backtick |
| `Strings.NatStringRoundTrip` | Connection.php:60 | Reading the decimal digits of a natural number back gives the number |
| `Strings.IntStringInjective` | Connection.php:60 | Two integers with the same string form are equal, so distinct integer keys give distinct column names |

## Left out

- The database round trip: `executeUpdate`, `prepare` and `execute` (Connection.php:27, 37, 41) are inherited Doctrine DBAL calls doing I/O. The model returns the statement and its parameters instead, and so does not model the 0/1/2 affected-rows value that MySQL reports.
- The inheritance from `\Doctrine\DBAL\Connection` is not part of this model. Doctrine DBAL is not part of this model.
- Floating-point values are not part of `Value`. Their string form in `sprintf` is not modelled.
- `Php.IsNumericKey`: `is_numeric` is true only for integer keys here. PHP also accepts string keys that look numeric without being canonical integers, such as "1.5" or " 7"; the model treats those as string keys.
- PHP turns a canonical integer string key such as "5" into the integer key 5 when an array is built. The model takes arrays as already normalised and does not enforce this.
- A PHP array never holds the same key twice. `PhpArray` does not enforce this, so the model also accepts lists with repeated keys. There, lookups take the first entry under a key, and `inLineArray`, `array_keys` and `array_values` keep every entry. `DistinctKeys` states the property where a lemma needs it.
- `Connection.InLineArray`: under PHP 8, `call_user_func_array` passes string keys of the batch as named arguments to `array_merge`, and that raises an error. The model concatenates the rows whatever the batch's keys are.
- `count()` on a row that is not an array is modelled as PHP 8's TypeError (`NotCountable`). PHP 7 instead warned and counted 1, or 0 for null.
- `sprintf('%s', $array)` emits the "Array to string conversion" notice. The model keeps only the text "Array".
- `list($first) = $data` emits a warning when key 0 is missing. The model keeps only the exception that follows.
