/** The text of the two statements the generator writes: the CREATE TABLE
    block (generator.py `_generate_create_table`) and one multi-row INSERT
    (generator.py `_generate_insert_batch`). */
module Render {
  import opened Text
  import opened ColumnTypes
  import opened Escape

  /** Every column has a type. */
  predicate Typed(columns: seq<string>, types: map<string, ColumnType>) {
    forall j :: 0 <= j < |columns| ==> columns[j] in types
  }

  /** Every row has one cell per column. */
  predicate Rectangular(rows: seq<seq<string>>, width: nat) {
    forall i :: 0 <= i < |rows| ==> |rows[i]| == width
  }

  // ---- CREATE TABLE ---------------------------------------------------------

  /** Two spaces, the column name, a space and the type name, with a comma on
      every column but the last. */
  function ColumnLine(column: string, t: ColumnType, last: bool): string {
    "  " + column + " " + TypeName(t) + (if last then "" else ",")
  }

  function CreateTableLines(tableName: string, columns: seq<string>, types: map<string, ColumnType>): seq<string>
    requires Typed(columns, types)
  {
    seq(|columns| + 2, k requires 0 <= k < |columns| + 2 =>
      if k == 0 then "CREATE TABLE " + tableName + " ("
      else if k == |columns| + 1 then ");\n"
      else ColumnLine(columns[k - 1], types[columns[k - 1]], k == |columns|))
  }

  function CreateTableText(tableName: string, columns: seq<string>, types: map<string, ColumnType>): string
    requires Typed(columns, types)
  {
    Join(CreateTableLines(tableName, columns, types), "\n")
  }

  /** The block opens the statement, has one line per column in column order
      naming the column and its type, ends every column line but the last with
      a comma, and closes with `);` and an empty line. */
  lemma CreateTableLinesShape(tableName: string, columns: seq<string>, types: map<string, ColumnType>)
    requires Typed(columns, types)
    ensures var lines := CreateTableLines(tableName, columns, types);
      && |lines| == |columns| + 2
      && lines[0] == "CREATE TABLE " + tableName + " ("
      && lines[|lines| - 1] == ");\n"
      && (forall j :: 0 <= j < |columns| ==>
            StartsWith(lines[j + 1], "  " + columns[j] + " " + TypeName(types[columns[j]])) &&
            (EndsWith(lines[j + 1], ",") <==> j < |columns| - 1))
  {
    var lines := CreateTableLines(tableName, columns, types);
    forall j | 0 <= j < |columns|
      ensures StartsWith(lines[j + 1], "  " + columns[j] + " " + TypeName(types[columns[j]]))
      ensures EndsWith(lines[j + 1], ",") <==> j < |columns| - 1
    {
      assert lines[j + 1] == ColumnLine(columns[j], types[columns[j]], j == |columns| - 1);
      ColumnLineShape(columns[j], types[columns[j]], j == |columns| - 1);
    }
  }

  /** The joined block starts with the statement's opening and ends with its close. */
  lemma CreateTableShape(tableName: string, columns: seq<string>, types: map<string, ColumnType>)
    requires Typed(columns, types)
    ensures StartsWith(CreateTableText(tableName, columns, types), "CREATE TABLE " + tableName + " (")
    ensures EndsWith(CreateTableText(tableName, columns, types), ");\n")
  {
    var lines := CreateTableLines(tableName, columns, types);
    assert lines[0] == "CREATE TABLE " + tableName + " (";
    assert lines[|lines| - 1] == ");\n";
    JoinEnds(lines, "\n");
  }

  lemma ColumnLineAt(tableName: string, columns: seq<string>, types: map<string, ColumnType>, j: nat)
    requires Typed(columns, types) && j < |columns|
    ensures CreateTableLines(tableName, columns, types)[j + 1] == ColumnLine(columns[j], types[columns[j]], j == |columns| - 1)
  {
  }

  lemma ColumnLineShape(column: string, t: ColumnType, last: bool)
    ensures StartsWith(ColumnLine(column, t, last), "  " + column + " " + TypeName(t))
    ensures EndsWith(ColumnLine(column, t, last), ",") <==> !last
  {
    var head := "  " + column + " " + TypeName(t);
    var line := ColumnLine(column, t, last);
    assert line == head + (if last then "" else ",");
    assert line[..|head|] == head;
    if last {
      assert line == head;
      assert head[|head| - 1] == TypeName(t)[|TypeName(t)| - 1];
    }
  }

  // ---- INSERT ---------------------------------------------------------------

  /** The rendered cells of one row, in column order. */
  function RowValues(row: seq<string>, columns: seq<string>, types: map<string, ColumnType>, d: Dialect): seq<string>
    requires |row| == |columns| && Typed(columns, types)
  {
    seq(|columns|, j requires 0 <= j < |columns| => EscapeValue(Str(row[j]), types[columns[j]], d))
  }

  /** The row's values separated by commas, in parentheses. */
  function TupleText(row: seq<string>, columns: seq<string>, types: map<string, ColumnType>, d: Dialect): string
    requires |row| == |columns| && Typed(columns, types)
  {
    "(" + Join(RowValues(row, columns, types, d), ", ") + ")"
  }

  function TupleTexts(rows: seq<seq<string>>, columns: seq<string>, types: map<string, ColumnType>, d: Dialect): seq<string>
    requires Rectangular(rows, |columns|) && Typed(columns, types)
  {
    seq(|rows|, i requires 0 <= i < |rows| => TupleText(rows[i], columns, types, d))
  }

  lemma RectangularSlice(rows: seq<seq<string>>, width: nat, lo: nat, hi: nat)
    requires Rectangular(rows, width) && lo <= hi <= |rows|
    ensures Rectangular(rows[lo..hi], width)
  {
    forall row | row in rows[lo..hi] ensures |row| == width {
      var k :| 0 <= k < hi - lo && rows[lo..hi][k] == row;
      assert rows[lo + k] == row;
    }
  }

  /** Rendering one more row appends its tuple. */
  lemma TupleTextsSnoc(rows: seq<seq<string>>, row: seq<string>, columns: seq<string>,
                       types: map<string, ColumnType>, d: Dialect)
    requires Rectangular(rows, |columns|) && |row| == |columns| && Typed(columns, types)
    ensures Rectangular(rows + [row], |columns|)
    ensures TupleTexts(rows + [row], columns, types, d) == TupleTexts(rows, columns, types, d) + [TupleText(row, columns, types, d)]
  {
    var r := rows + [row];
    forall x | x in r ensures |x| == |columns| {
      if x != row { assert x in rows; }
    }
    assert r[|rows|] == row;
    forall k | 0 <= k < |rows| ensures r[k] == rows[k] { }
  }

  function InsertHeader(tableName: string, columns: seq<string>): string {
    "INSERT INTO " + tableName + " (" + Join(columns, ", ") + ")\nVALUES\n  "
  }

  /** One INSERT of all the given rows; no rows, no text. */
  function InsertBatchText(tableName: string, columns: seq<string>, types: map<string, ColumnType>,
                           d: Dialect, rows: seq<seq<string>>): string
    requires Rectangular(rows, |columns|) && Typed(columns, types)
  {
    if |rows| == 0 then ""
    else InsertHeader(tableName, columns) + Join(TupleTexts(rows, columns, types, d), ",\n  ") + ";\n"
  }

  /** A non-empty batch is one statement: it opens with the table and its
      column list followed by the first row's tuple, and ends with `;` and a
      newline. An empty batch renders as nothing. */
  lemma InsertBatchShape(tableName: string, columns: seq<string>, types: map<string, ColumnType>,
                         d: Dialect, rows: seq<seq<string>>)
    requires Rectangular(rows, |columns|) && Typed(columns, types)
    ensures |rows| == 0 ==> InsertBatchText(tableName, columns, types, d, rows) == ""
    ensures |rows| > 0 ==>
      StartsWith(InsertBatchText(tableName, columns, types, d, rows),
                 InsertHeader(tableName, columns) + TupleText(rows[0], columns, types, d))
    ensures |rows| > 0 ==> StartsWith(InsertBatchText(tableName, columns, types, d, rows), "INSERT INTO " + tableName + " (")
    ensures |rows| > 0 ==> EndsWith(InsertBatchText(tableName, columns, types, d, rows), ";\n")
  {
    if |rows| > 0 {
      var header := InsertHeader(tableName, columns);
      var tuples := TupleTexts(rows, columns, types, d);
      FirstTuple(rows, columns, types, d);
      var open := "INSERT INTO " + tableName + " (";
      assert StartsWith(header, open) by {
        assert header == open + (Join(columns, ", ") + ")\nVALUES\n  ");
      }
      JoinEnds(tuples, ",\n  ");
      StatementParts(header, Join(tuples, ",\n  "), ";\n", tuples[0], open);
    }
  }

  lemma FirstTuple(rows: seq<seq<string>>, columns: seq<string>, types: map<string, ColumnType>, d: Dialect)
    requires Rectangular(rows, |columns|) && Typed(columns, types) && |rows| > 0
    ensures |rows[0]| == |columns|
    ensures |TupleTexts(rows, columns, types, d)| > 0
    ensures TupleTexts(rows, columns, types, d)[0] == TupleText(rows[0], columns, types, d)
  {
    assert rows[0] in rows;
  }

  lemma StatementParts(header: string, body: string, tail: string, first: string, open: string)
    requires StartsWith(body, first) && StartsWith(header, open)
    ensures StartsWith(header + body + tail, header + first)
    ensures StartsWith(header + body + tail, open)
    ensures EndsWith(header + body + tail, tail)
  {
    StartsWithAppend(body, tail, first);
    StartsWithConcat(header, body + tail, first);
    assert header + body + tail == header + (body + tail);
    StartsWithAppend(header, first, open);
    StartsWithTrans(header + body + tail, header + first, open);
    EndsWithConcat(header + body, tail);
  }

  /** Each tuple holds exactly one rendered value per column, in column order. */
  lemma TupleArity(row: seq<string>, columns: seq<string>, types: map<string, ColumnType>, d: Dialect)
    requires |row| == |columns| && Typed(columns, types)
    ensures |RowValues(row, columns, types, d)| == |columns|
    ensures forall j :: 0 <= j < |columns| ==>
      RowValues(row, columns, types, d)[j] == EscapeValue(Str(row[j]), types[columns[j]], d)
  {
  }

  /** The dialect only reaches the text through boolean literals: a batch with
      no BOOLEAN column is the same text in every dialect. */
  lemma InsertDialectIndependent(tableName: string, columns: seq<string>, types: map<string, ColumnType>,
                                 rows: seq<seq<string>>, d1: Dialect, d2: Dialect)
    requires Rectangular(rows, |columns|) && Typed(columns, types)
    requires forall j :: 0 <= j < |columns| ==> types[columns[j]] != Boolean
    ensures InsertBatchText(tableName, columns, types, d1, rows) == InsertBatchText(tableName, columns, types, d2, rows)
  {
    forall i | 0 <= i < |rows|
      ensures TupleText(rows[i], columns, types, d1) == TupleText(rows[i], columns, types, d2)
    {
      assert RowValues(rows[i], columns, types, d1) == RowValues(rows[i], columns, types, d2);
    }
    assert TupleTexts(rows, columns, types, d1) == TupleTexts(rows, columns, types, d2);
  }
}
