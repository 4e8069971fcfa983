# sql-seed generator, modelled in Dafny

This project models `SQLGenerator`, the class in `src/sql_seed/generator.py`
that turns a CSV table into SQL text. It starts from an already parsed table:
a header of column names and rows of string cells. From there it models:

- the load step: the "CSV file is empty" error and the column renaming;
- type inference for each column: the first of BOOLEAN, INTEGER,
  DECIMAL(10,2) and DATE that every non-empty value passes, else
  VARCHAR(max(longest + 50, 255));
- value escaping: NULL, numbers verbatim, dialect-dependent booleans, and
  quoted strings with backslashes and quotes doubled;
- the CREATE TABLE block and the multi-row INSERT statement;
- `generate`: the optional CREATE TABLE block, one INSERT per batch of the
  rows it visits, a dry run capped at five rows, and the blocks joined with
  newlines.

Modules, in dependency order:

| file | module | contents |
|---|---|---|
| wrappers.dfy | `Wrappers` | `Option`, `Result` |
| text.dfy | `Text` | `Join` (Python's `sep.join`), prefixes and suffixes, digits, `str(n)`, ASCII `lower` |
| column_types.dfy | `ColumnTypes` | the five column types, their names, and the per-value BOOLEAN, INTEGER, DECIMAL and DATE tests |
| inference.dfy | `Inference` | `_infer_column_type` and its precedence properties |
| escape.dfy | `Escape` | `_escape_value`, the string escape and its inverse |
| render.dfy | `Render` | CREATE TABLE lines and INSERT text as specification functions |
| load.dfy | `Load` | `_load_csv` on a parsed table: the empty check and the renaming |
| batching.dfy | `Batching` | cutting rows into consecutive batches (`rows[i:i+B]` for i = 0, B, 2B, ...) |
| generator.dfy | `Generator` | the `SQLGenerator` class with the source's loops, and the properties of `generate`'s output |

The loops stay loops. `_infer_types`, `_generate_create_table`,
`_generate_insert_batch` and `generate` are methods of the class
`Generator.SQLGenerator`, each with a `while` loop. Each is proved equal to a
specification function of the object's state:

- `TypesInferred` for `_infer_types`;
- `CreateTableText` for `_generate_create_table`;
- `InsertBatchText` for `_generate_insert_batch`;
- `Output` for `generate`.

The lemmas about those functions carry the properties. `generate` changes
no field, since the method has no `modifies` clause. Its result is
`Output(includeCreateTable, dryRun)`, a function of the object's fields, so
repeated calls return the same text. Blocks are joined with a single
newline; since every block ends with its own newline, a blank line separates
them. `_load_csv` (src/sql_seed/generator.py:21-22) refuses a table without
rows, so `generate` never sees an empty one.

The numeric tests `_is_integer` and `_is_decimal` depend on what Python's
`float` accepts. They are modelled by a stated decimal-literal grammar:
optional sign, digits, optional `.` and digits, at least one digit in all.
INTEGER is the grammar with all fraction digits `0`. `IntegerIffWholeValue`
proves this the same as "the literal's exact value is a whole number". That
is the comparison `float(val) == int(float(val))` makes when no rounding
occurs.

## Model

| member | source | states |
|---|---|---|
| ColumnTypes.TypeName | src/sql_seed/generator.py:38-53 | definition: the type name each inference level writes; never empty and never ending in `,`; `TypeNameRoundTrip` and `TypeNameInjective` below |
| ColumnTypes.IsBooleanLiteral | src/sql_seed/generator.py:40 | definition: the lower-cased value is `true`, `false`, `1` or `0`; used by `InferColumnType` and `BooleanBeforeInteger` |
| ColumnTypes.IsTrueLiteral | src/sql_seed/generator.py:80 | definition: the lower-cased value is `true` or `1`; used by `EscapeValue` and `BooleanLiteral` |
| ColumnTypes.IsDecimal | src/sql_seed/generator.py:61-66 | definition: a decimal-literal grammar standing for "`float` accepts it"; `IntegerIsDecimal`, `PointedDigitsAreDecimal`, `StrayCharNotDecimal` and `NonNumericExamples` below |
| ColumnTypes.IsInteger | src/sql_seed/generator.py:55-59 | definition: a decimal literal whose fraction digits are all zero; `IntegerIffWholeValue` below proves it equal to "the value is whole" |
| ColumnTypes.IsDate | src/sql_seed/generator.py:68-70 | definition: the two exact-length patterns `dddd-dd-dd` and `dd/dd/dddd`; `DateExamples` and `DateValue` below |
| ColumnTypes.TypeNameRoundTrip | src/sql_seed/generator.py:35-53 | every inferred type is recovered from the name written for it, so distinct types have distinct names |
| ColumnTypes.TypeNameInjective | src/sql_seed/generator.py:35-53 | two types with the same name are the same type |
| ColumnTypes.IntegerIsDecimal | src/sql_seed/generator.py:55-66 | every value that passes the INTEGER test passes the DECIMAL test (`float(val)` runs first) |
| ColumnTypes.IntegerIffWholeValue | src/sql_seed/generator.py:55-59 | for a decimal literal, the INTEGER test holds exactly when its numeric value is whole |
| ColumnTypes.FracValueBounds | src/sql_seed/generator.py:55-59 | the fractional part of a literal is in [0, 1), and is 0 exactly when every fraction digit is `0` |
| ColumnTypes.WholeIffNoFraction | src/sql_seed/generator.py:57 | a signed number n + f with 0 <= f < 1 is whole exactly when f = 0 |
| ColumnTypes.IntegerExamples | src/sql_seed/generator.py:55-59 | "25", "25.0" and "-7" pass the INTEGER test |
| ColumnTypes.DigitsAreInteger | src/sql_seed/generator.py:55-59 | a non-empty run of digits passes the INTEGER test |
| ColumnTypes.PointedDigitsAreDecimal | src/sql_seed/generator.py:61-66 | `digits.digits` passes the DECIMAL test |
| ColumnTypes.StrayCharNotDecimal | src/sql_seed/generator.py:61-66 | an unsigned value with a character other than a digit or `.` before its first `.` is not a number |
| ColumnTypes.FractionalDecimal | src/sql_seed/generator.py:55-66 | a literal `digits.digits` whose first fraction digit is not `0` is DECIMAL and not INTEGER |
| ColumnTypes.DecimalExamples | tests/test_generator.py:49-51 | "19.99" and "29.50" are DECIMAL and not INTEGER |
| ColumnTypes.NonNumericExamples | src/sql_seed/generator.py:61-66 | "", "." and "abc" are not numbers |
| ColumnTypes.DateExamples | src/sql_seed/generator.py:68-70 | `2024-01-15` and `01/15/2024` are dates; `2024-1-15` and `2024/01/15` are not |
| Text.NatToString | src/sql_seed/generator.py:53 | the decimal text of n is non-empty, all digits, denotes n, and has no leading zero |
| Text.JoinEnds | src/sql_seed/generator.py:94 | a join of no parts is empty; otherwise it begins with the first part and ends with the last |
| Inference.InferColumnType | src/sql_seed/generator.py:35-53 | definition of `_infer_column_type`: VARCHAR(255) for no non-empty cell, else the first of BOOLEAN, INTEGER, DECIMAL(10,2), DATE that all non-empty cells pass, else VARCHAR(max(longest + 50, 255)); `InferredTypeAdmitsEveryValue`, `InferredTypeIsFirstLevel`, `FirstPassingLevel`, `VarcharWidth` and `EmptyCellIgnored` below |
| Inference.NonEmpty | src/sql_seed/generator.py:36 | the non-empty values are exactly the column's values other than "", none longer than the column |
| Inference.NonEmptyAppend | src/sql_seed/generator.py:36 | filtering out empty values distributes over concatenation |
| Inference.MaxLen | src/sql_seed/generator.py:52 | the maximum length is at least every value's length and is reached by one value; 0 for no values |
| Inference.InferredTypeAdmitsEveryValue | src/sql_seed/generator.py:35-53 | every non-empty cell passes the inferred type's test; for VARCHAR(n), n >= its length + 50 |
| Inference.InferredTypeAdmitsNonEmpty | src/sql_seed/generator.py:40-53 | the inferred type's test holds for the whole list of non-empty values |
| Inference.LongestFits | src/sql_seed/generator.py:52-53 | every value fits VARCHAR(max(longest + 50, 255)) with 50 characters to spare |
| Inference.InferredTypeIsFirstLevel | src/sql_seed/generator.py:40-50 | some non-empty value fails every level tried before the inferred one (first match wins) |
| Inference.NonEmptyOfBlankColumn | src/sql_seed/generator.py:36-38 | a column of empty strings has no non-empty values |
| Inference.EmptyColumnIsVarchar255 | src/sql_seed/generator.py:36-38 | a column with no non-empty value is VARCHAR(255) |
| Inference.VarcharWidth | src/sql_seed/generator.py:52-53 | a VARCHAR width is at least 255; above 255 it is exactly some value's length + 50 |
| Inference.EmptyCellIgnored | src/sql_seed/generator.py:36 | inserting an empty cell anywhere in a column never changes its type |
| Inference.BooleanBeforeInteger | src/sql_seed/generator.py:40-44 | "1" and "0" pass the INTEGER test, yet a column of them is BOOLEAN |
| Inference.NonEmptyOfFullColumn | src/sql_seed/generator.py:36 | a column with no empty cell keeps all its values |
| Inference.FirstPassingLevel | src/sql_seed/generator.py:40-50 | the converse of `InferredTypeIsFirstLevel`: if every non-empty value passes t and one value fails every earlier level, the column is t |
| Inference.NoLevelPasses | src/sql_seed/generator.py:40-53 | a value that fails all four levels makes the column a VARCHAR |
| Inference.IdColumnIsInteger | tests/test_generator.py:44-47 | the sample table's `id` column 1, 2, 3 is INTEGER |
| Inference.AgeColumnIsInteger | tests/test_generator.py:44-47 | the `age` column 25, 30, "" is INTEGER; the empty cell is skipped |
| Inference.PriceColumnIsDecimal | tests/test_generator.py:49-51 | the `price` column 19.99, 29.50, 15.00 is DECIMAL(10,2) |
| Inference.ActiveColumnIsBoolean | tests/test_generator.py:53-55 | the `active` column true, false, 1 is BOOLEAN |
| Inference.CreatedColumnIsDate | tests/test_generator.py:57-59 | the `created` column of three `YYYY-MM-DD` values is DATE |
| Inference.DateValue | src/sql_seed/generator.py:40-70 | a `YYYY-MM-DD` value passes the DATE test and fails BOOLEAN, INTEGER and DECIMAL |
| Inference.NameColumnIsVarchar255 | tests/test_generator.py:61-63 | the `name` column John, Jane, Bob is VARCHAR(255) |
| Escape.EscapeBody | src/sql_seed/generator.py:85 | definition: `\` doubled first, then `'` doubled; `EscapeBodyCons`, `EscapeBodyLength` and `UndoubleEscapeBody` below |
| Escape.EscapeString | src/sql_seed/generator.py:85-86 | definition: the escaped body between single quotes; `EscapeStringRoundTrip` and `EscapeStringInjective` below |
| Escape.EscapeValue | src/sql_seed/generator.py:72-86 | definition of `_escape_value`: NULL for an empty or null cell, the raw text for INTEGER and DECIMAL, 1/0 or TRUE/FALSE for BOOLEAN, otherwise the quoted literal; `EscapeValueReadsBack`, `EscapeNullIff` and `BooleanLiteral` below |
| Escape.DoubleChar | src/sql_seed/generator.py:85 | `replace(c, c + c)` grows the text by one per occurrence of c |
| Escape.DoubleCharAppend | src/sql_seed/generator.py:85 | doubling a character distributes over concatenation |
| Escape.EscapeBodyAppend | src/sql_seed/generator.py:85 | the two replacements applied to a + b give the results for a and for b, concatenated |
| Escape.EscapeBodyCons | src/sql_seed/generator.py:85 | the two successive replacements act character by character: `\` to `\\`, `'` to `''`, other characters unchanged |
| Escape.EscapeStringQuoted | src/sql_seed/generator.py:86 | a string literal starts and ends with a single quote |
| Escape.EscapeBodyLength | src/sql_seed/generator.py:85 | the escaped body is longer by the number of backslashes plus the number of quotes |
| Escape.EscapeStringLength | src/sql_seed/generator.py:85-86 | a literal's length is \|s\| + #backslashes + #quotes + 2 |
| Escape.UndoubleEscapeBody | src/sql_seed/generator.py:85 | undoubling the escaped body gives back the value |
| Escape.EscapeStringRoundTrip | src/sql_seed/generator.py:85-86 | unescaping a literal gives back the value it was made from |
| Escape.EscapeStringInjective | src/sql_seed/generator.py:85-86 | distinct values give distinct string literals |
| Escape.EscapeBodyPlain | src/sql_seed/generator.py:85 | a value with no backslash and no quote is left unchanged inside the quotes |
| Escape.EscapeQuoteExample | tests/test_generator.py:70-73 | `O'Brien` is written as `'O''Brien'` |
| Escape.QuoteExampleBody | src/sql_seed/generator.py:85 | the body of that literal is `O''Brien` |
| Escape.EscapeBackslashExample | tests/test_generator.py:75-78 | `C:\path` is written as `'C:\\path'` |
| Escape.BackslashExampleBody | src/sql_seed/generator.py:85 | the body of that literal is `C:\\path` |
| Escape.NullIsNotDecimal | src/sql_seed/generator.py:73-77 | the text `NULL` never passes the numeric test, so a numeric cell cannot render as NULL |
| Escape.EscapeValueReadsBack | src/sql_seed/generator.py:72-86 | for a non-boolean column, read back under `Unescape` (the inverse of the escape, which is how MySQL reads a string literal): an empty cell reads back as NULL, and a value the column's type admits reads back as itself |
| Escape.EscapeNullIff | src/sql_seed/generator.py:73-74 | the rendering is `NULL` exactly for the empty string and for a null cell |
| Escape.BooleanLiteral | src/sql_seed/generator.py:79-83 | a boolean renders as 1/0 for MySQL and TRUE/FALSE otherwise, the true form exactly when the lowered value is `true` or `1` |
| Render.CreateTableText | src/sql_seed/generator.py:88-94 | definition of `_generate_create_table`: its lines joined with newlines; `CreateTableLinesShape` and `CreateTableShape` below, and `SQLGenerator.CreateTable` is proved equal to it |
| Render.InsertBatchText | src/sql_seed/generator.py:96-112 | definition of `_generate_insert_batch`: "" for no rows, otherwise the header and the rows' tuples; `InsertBatchShape`, `TupleArity` and `InsertDialectIndependent` below, and `SQLGenerator.InsertBatch` is proved equal to it |
| Render.CreateTableLinesShape | src/sql_seed/generator.py:88-93 | the CREATE block's lines: the opening line, one `  col type` line per column in column order with a comma on all but the last, then `);` and a newline |
| Render.CreateTableShape | src/sql_seed/generator.py:88-94 | the joined CREATE block starts with `CREATE TABLE t (` and ends with `);` and a newline |
| Render.ColumnLineShape | src/sql_seed/generator.py:91-92 | a column line starts with its name and type and ends with a comma exactly when it is not last |
| Render.TupleTextsSnoc | src/sql_seed/generator.py:103-105 | rendering one more row appends exactly that row's tuple |
| Render.RectangularSlice | src/sql_seed/generator.py:124 | a slice of rows has one cell per column in every row, like the table |
| Render.InsertBatchShape | src/sql_seed/generator.py:96-112 | an empty batch is ""; otherwise the statement opens with `INSERT INTO t (columns)`, VALUES and the first row's tuple, and ends with `;` and a newline |
| Render.FirstTuple | src/sql_seed/generator.py:103-105 | the first tuple of a non-empty batch is the first row's |
| Render.TupleArity | src/sql_seed/generator.py:104 | each tuple holds one escaped value per column, in column order (read off the definition of `RowValues`) |
| Render.InsertDialectIndependent | src/sql_seed/generator.py:104-112 | with no BOOLEAN column the INSERT text is the same in every dialect; the two dialect branches agree |
| Load.Rename | src/sql_seed/generator.py:23-24 | definition of `df.rename(columns=...)` on the header; `RenamePointwise`, `RenameIgnoresUnmatchedKey` and `RenameWithoutMatches` below |
| Load.LoadTable | src/sql_seed/generator.py:18-27 | definition of `_load_csv` after parsing: the error for an empty table, otherwise the renamed table; `LoadTableSpec` below |
| Load.RenamePointwise | src/sql_seed/generator.py:23-24 | renaming keeps the number and order of columns; a mapped column takes its new name, the others keep theirs (read off the definition of `Rename`) |
| Load.RenameIgnoresUnmatchedKey | src/sql_seed/generator.py:23-24 | a mapping entry that names no column has no effect |
| Load.RenameWithoutMatches | src/sql_seed/generator.py:23-24 | with no applicable entry the header is unchanged, so skipping an empty mapping changes nothing |
| Load.LoadTableSpec | src/sql_seed/generator.py:18-27 | loading fails exactly for an empty table, with "Failed to load CSV: CSV file is empty"; otherwise the table is the renamed header and the rows unchanged |
| Batching.Chunks | src/sql_seed/generator.py:123-124 | definition of the `range(0, R, B)` slices `rows[i:i + B]`; `ChunksCount`, `ChunksFlatten`, `ChunksSizes`, `ChunksSnoc` and `ChunksMembers` below |
| Batching.ChunksCount | src/sql_seed/generator.py:123-124 | there are ceil(R / B) batches |
| Batching.ChunksFlatten | src/sql_seed/generator.py:123-124 | the batches, concatenated, are all the rows in order |
| Batching.ChunksSizes | src/sql_seed/generator.py:123-124 | every batch has between 1 and B rows, and all but the last have exactly B |
| Batching.ChunksSnoc | src/sql_seed/generator.py:123-124 | a whole number of batches followed by at most one batch more cuts into the former's batches plus that one |
| Batching.ChunksMembers | src/sql_seed/generator.py:124 | every row of every batch is a row of the table |
| Batching.CeilDivAtLeastTwo | src/sql_seed/generator.py:123 | more than B rows need at least two batches |
| Batching.CeilDivPositive | src/sql_seed/generator.py:123 | a non-empty run of rows needs at least one batch |
| Generator.OutputBlocks | src/sql_seed/generator.py:114-129 | definition of the list `generate` joins: the optional CREATE block, then one INSERT per batch of the visited rows; `OutputBlockCount`, `OutputCoversRows`, `OutputBlockKinds` and `OutputStartsWithCreateIff` below, and `SQLGenerator.Generate` is proved to return it joined |
| Generator.Column | src/sql_seed/generator.py:32 | `df[col]`: the cells of column j, one per row, in row order (read off the definition) |
| Generator.InferredTypes | src/sql_seed/generator.py:29-33 | one inferred type per column |
| Generator.DistinctCard | src/sql_seed/generator.py:30-33 | with distinct names there are as many map entries as columns |
| Generator.ChunksRectangular | src/sql_seed/generator.py:124 | every batch has one cell per column in each row |
| Generator.InsertBlocksSnoc | src/sql_seed/generator.py:123-127 | rows making up whole batches and then one batch more give the former's INSERTs plus one |
| Generator.NextBlock | src/sql_seed/generator.py:123-127 | the INSERTs of the rows before offset i, plus the batch at i, are the INSERTs of the rows up to that batch's end |
| Generator.OutputBlockCount | src/sql_seed/generator.py:114-129 | the output has ceil(min(limit, R) / B) INSERT blocks, plus one CREATE block when asked for |
| Generator.OutputCoversRows | src/sql_seed/generator.py:120-127 | the batches rendered are all rows in order on a normal run, and the first min(5, R) rows on a dry run |
| Generator.InsertBlocksShape | src/sql_seed/generator.py:96-127 | every INSERT block starts with `INSERT INTO t (` and ends with `;` and a newline |
| Generator.OutputBlockKinds | src/sql_seed/generator.py:114-129 | block 0 is the CREATE block when asked for; every other block is an INSERT statement; no block is a `--` line |
| Generator.NotBothPrefixes | src/sql_seed/generator.py:114-129 | a text cannot start with two strings that differ in their first character, so a CREATE or INSERT block is never a comment |
| Generator.OutputStartsWithCreateIff | src/sql_seed/generator.py:117-118 | the output starts with `CREATE TABLE t (` exactly when the CREATE block was asked for; otherwise a non-empty table's output starts with an INSERT |
| Generator.DryRunSeveralInserts | src/sql_seed/generator.py:121-127 | on a dry run with B < 5 and more than B rows, at least two INSERT statements are written |
| Generator.DryRunOneInsert | src/sql_seed/generator.py:121-127 | on a dry run with B >= 5, exactly one INSERT is written, holding the first min(5, R) rows |
| Generator.BatchSplitExample | tests/test_generator.py:112-118 | 250 rows in batches of 100 give 3 INSERT statements; a dry run of them gives 1 |
| Generator.BatchSplitRows | tests/test_generator.py:112-118 | those three batches are rows 0-99, 100-199 and 200-249 |
| Generator.DryRunBatchesOfTwo | src/sql_seed/generator.py:121-127 | a dry run in batches of 2 renders rows 0-1, 2-3 and 4 |
| Generator.ColumnLineText | src/sql_seed/generator.py:90-92 | the text the CREATE loop appends for column i is line i + 1 of the specification, with a comma exactly when i < len - 1 (read off the definition of `CreateTableLines`) |
| Generator.SQLGenerator.constructor | src/sql_seed/generator.py:8-16 | keeps the arguments and the loaded table, and leaves every column typed by inference over its own cells |
| Generator.SQLGenerator.Create | src/sql_seed/generator.py:8-27 | fails exactly for an empty table, with the load error; otherwise a valid generator over the renamed table, with types keyed by the new names |
| Generator.SQLGenerator.InferTypes | src/sql_seed/generator.py:29-33 | the map holds exactly the columns, each with the type inferred from its own cells |
| Generator.SQLGenerator.CreateTable | src/sql_seed/generator.py:88-94 | the loop builds exactly the CREATE TABLE specification text |
| Generator.SQLGenerator.InsertBatch | src/sql_seed/generator.py:96-112 | the loop builds exactly the INSERT specification text of the batch, in both dialect branches |
| Generator.SQLGenerator.Truncate | src/sql_seed/generator.py:124-127 | the cut batch is the next batch of the first min(limit, R) rows |
| Generator.SQLGenerator.NextInsert | src/sql_seed/generator.py:123-127 | one pass of the loop yields the statement that extends the INSERT list of the rows seen so far |
| Generator.SQLGenerator.Generate | src/sql_seed/generator.py:114-129 | the returned text is the optional CREATE block and the INSERTs of the visited rows, joined with newlines |

## Code versus its tests

In two places `generate` does not do what the repository's tests and help
text say, and one of its checks is dead code. The model follows the code:

- **No dry-run marker.** tests/test_generator.py:110 and
  tests/test_cli.py:53 expect `-- Showing first 5 INSERT statements` in the
  output of a dry run. `generate` (src/sql_seed/generator.py:114-129) never
  adds a marker of its own. `Generator.OutputBlockKinds` proves that every
  output block is the CREATE TABLE block or an INSERT statement, so no block
  it emits starts with `--`. (A cell, table name or column name that
  contains such a line is copied into the text, so it can still appear
  there.)
- **A dry run caps rows, not statements.** The `--dry-run` help text at
  src/sql_seed/cli.py:13 is `Show first 5 INSERT statements only`. The loop
  at src/sql_seed/generator.py:121-127 instead stops after the first five
  rows, min(5, R). How many statements that makes depends on B:
  - With B >= 5 it is exactly one INSERT (`Generator.DryRunOneInsert`). For
    250 rows in batches of 100, the first five statements would be all
    three, and the dry run writes one (`Generator.BatchSplitExample`).
  - With B < 5 and R > B it is at least two (`Generator.DryRunSeveralInserts`).
    For B = 2 the batches hold 2, 2 and 1 rows (`Generator.DryRunBatchesOfTwo`).
- **The dry-run `break` never fires.** The range at
  src/sql_seed/generator.py:123 already stops below min(5, R), so the test
  `i >= 5` at lines 125-126 is never true. `Generator.SQLGenerator.Generate`
  models the check and the `break`, and is proved equal to `Output` all the
  same.

## Left out

- CSV parsing and file access (`pd.read_csv`, generator.py:20): the model
  starts from a parsed header and string cells, and the path is not
  modelled.
- Wrapping of arbitrary exceptions into "Failed to load CSV: ..."
  (generator.py:26-27): only the empty-table error is modelled, and it
  carries the wrapped message.
- pandas' dtype coercion to numbers: cells stay the raw strings. This
  changes how numbers render: "29.50" is printed back as "29.5" by
  `str(val)`, and the model writes `29.50`. It also changes inference. A
  full column "01", "00" is read as the integers 1 and 0; the source then
  infers BOOLEAN and writes TRUE/FALSE, while the model infers INTEGER and
  writes `01`/`00`.
- `ColumnTypes.IsDecimal`: a decimal-literal grammar in place of everything
  Python's `float` accepts. Not accepted: `inf`, `nan`, exponents,
  underscores, surrounding whitespace, and non-ASCII decimal digits (Python
  reads `float("٣")` and `float("３")` as 3.0). Float rounding and the
  overflow of `int(float("inf"))` are out as well.
- `ColumnTypes.IsDate`: ASCII digits and exact length. Python's `$` also
  matches before a trailing newline and `\d` also matches non-ASCII digits;
  neither is modelled.
- `Text.Lower`: ASCII lower-casing. No non-ASCII character lowers to the
  ASCII text of `true`, `false`, `1` or `0`, so the boolean tests agree with
  Python's `str.lower()`.
- pandas' NA: a null cell is `Escape.Cell.Null`, which renders as `NULL`.
  The source's `val == ''` comparison on `pd.NA` is not modelled.
- What a database makes of the text is not modelled. `Unescape` is the
  inverse of the escape, which is MySQL's default reading of a string
  literal. PostgreSQL (with `standard_conforming_strings`, on by default)
  and SQLite take `\` literally inside `'...'`, so they read
  `'C:\\path'` as `C:\\path`.
- Identifier quoting: table and column names are written into the text
  unchanged, as in the source.
- Batch size 0 or below. For B = 0, `range` at generator.py:123 raises
  `ValueError`, because a zero step is refused. For B < 0, the range is
  empty: no INSERT is written, and `generate` returns "" or the CREATE
  block alone. The CLI passes any integer through (cli.py:11). The model
  requires B >= 1 and captures neither case.
- Duplicate column names after renaming: the source's dict would merge
  them, so the model requires distinct names.
- Column order of the type map: the source iterates the dict in insertion
  order, which is column order. The model indexes the map by the column
  list, which gives the same order.
- `Escape.Dialect`: three values standing for the CLI's three choices. The
  generator itself only asks whether the dialect is `mysql`
  (generator.py:81, 107), so any other string behaves like `PostgreSQL` or
  `SQLite`. The model has no value for such a string.
- Default arguments: `dialect='postgresql'` and `batch_size=100`
  (generator.py:8-9), `include_create_table=False` and `dry_run=False`
  (generator.py:114). The model's members take every argument explicitly.
- src/sql_seed/cli.py is not part of this model: option parsing, the
  `old:new` mapping string, output to stdout or a file, and exit codes.
