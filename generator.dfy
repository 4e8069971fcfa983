/** The generator object (generator.py `SQLGenerator`): built from a loaded
    table, it infers one type per column when constructed and renders the
    CREATE TABLE block and the batched INSERT statements on request. */
module Generator {
  import opened Text
  import opened Wrappers
  import opened ColumnTypes
  import opened Inference
  import opened Escape
  import opened Render
  import opened Batching
  import opened Load

  /** No column name occurs twice. */
  predicate Distinct(columns: seq<string>) {
    forall i, j :: 0 <= i < j < |columns| ==> columns[i] != columns[j]
  }

  /** The cells of column j, in row order. */
  function Column(rows: seq<seq<string>>, j: nat): (c: seq<string>)
    requires forall row :: row in rows ==> j < |row|
    ensures |c| == |rows|
    ensures forall i :: 0 <= i < |rows| ==> c[i] == rows[i][j]
  {
    seq(|rows|, i requires 0 <= i < |rows| => rows[i][j])
  }

  /** The type map holds exactly the columns, each with the type inferred
      from its own cells. */
  ghost predicate TypesInferred(columns: seq<string>, rows: seq<seq<string>>, types: map<string, ColumnType>)
    requires Rectangular(rows, |columns|)
  {
    types.Keys == (set c | c in columns) &&
    forall j {:trigger Column(rows, j)} :: 0 <= j < |columns| ==> types[columns[j]] == InferColumnType(Column(rows, j))
  }

  /** The type inferred for each column, in column order. */
  function InferredTypes(rows: seq<seq<string>>, width: nat): (ts: seq<ColumnType>)
    requires Rectangular(rows, width)
    ensures |ts| == width
  {
    seq(width, j requires 0 <= j < width => InferColumnType(Column(rows, j)))
  }

  /** A map whose keys are the columns has the columns' set as its key set. */
  lemma KeysAreColumns(types: map<string, ColumnType>, columns: seq<string>)
    requires forall c :: c in types <==> c in columns
    ensures types.Keys == set c | c in columns
  {
  }

  lemma {:induction false} DistinctCard(columns: seq<string>)
    requires Distinct(columns)
    ensures |set c | c in columns| == |columns|
  {
    if |columns| > 0 {
      var rest := columns[1..];
      assert Distinct(rest) by {
        forall i, j | 0 <= i < j < |rest| ensures rest[i] != rest[j] {
          assert rest[i] == columns[i + 1] && rest[j] == columns[j + 1];
        }
      }
      DistinctCard(rest);
      assert columns[0] !in rest by {
        forall j | 0 <= j < |rest| ensures rest[j] != columns[0] {
          assert rest[j] == columns[j + 1];
        }
      }
      assert (set c | c in columns) == {columns[0]} + (set c | c in rest) by {
        assert columns == [columns[0]] + rest;
      }
    }
  }

  /** The number of rows `generate` visits: min(limit, R), where the
      limit is 5 on a dry run and the row count otherwise. */
  function RowLimit(count: nat, dryRun: bool): nat {
    Min(if dryRun then 5 else count, count)
  }

  lemma ChunksRectangular(rows: seq<seq<string>>, width: nat, b: nat)
    requires b >= 1 && Rectangular(rows, width)
    ensures forall k :: 0 <= k < |Chunks(rows, b)| ==> Rectangular(Chunks(rows, b)[k], width)
  {
    ChunksMembers(rows, b);
  }

  /** One INSERT statement per batch of the rows. */
  function InsertBlocks(tableName: string, columns: seq<string>, types: map<string, ColumnType>, d: Dialect,
                        rows: seq<seq<string>>, b: nat): seq<string>
    requires b >= 1 && Rectangular(rows, |columns|) && Typed(columns, types)
  {
    var batches := Chunks(rows, b);
    ChunksRectangular(rows, |columns|, b);
    seq(|batches|, k requires 0 <= k < |batches| => InsertBatchText(tableName, columns, types, d, batches[k]))
  }

  /** The blocks `generate` joins with newlines: optionally the CREATE TABLE
      block, then one INSERT per batch of the rows it visits. */
  function OutputBlocks(tableName: string, columns: seq<string>, types: map<string, ColumnType>, d: Dialect,
                        rows: seq<seq<string>>, b: nat, includeCreateTable: bool, dryRun: bool): seq<string>
    requires b >= 1 && Rectangular(rows, |columns|) && Typed(columns, types)
  {
    RectangularSlice(rows, |columns|, 0, RowLimit(|rows|, dryRun));
    (if includeCreateTable then [CreateTableText(tableName, columns, types)] else []) +
    InsertBlocks(tableName, columns, types, d, rows[..RowLimit(|rows|, dryRun)], b)
  }

  /** Rows making up a whole number of batches, followed by at most one batch
      more, give the statements of the former followed by one statement. */
  lemma InsertBlocksSnoc(tableName: string, columns: seq<string>, types: map<string, ColumnType>, d: Dialect,
                         s: seq<seq<string>>, t: seq<seq<string>>, b: nat)
    requires Typed(columns, types) && Rectangular(s, |columns|) && Rectangular(t, |columns|)
    requires b >= 1 && |s| % b == 0 && 0 < |t| <= b
    ensures Rectangular(s + t, |columns|)
    ensures InsertBlocks(tableName, columns, types, d, s + t, b) ==
      InsertBlocks(tableName, columns, types, d, s, b) + [InsertBatchText(tableName, columns, types, d, t)]
  {
    assert Rectangular(s + t, |columns|) by {
      forall row | row in s + t ensures |row| == |columns| {
        if row !in s { assert row in t; }
      }
    }
    ChunksSnoc(s, t, b);
  }

  lemma InsertBlocksEmpty(tableName: string, columns: seq<string>, types: map<string, ColumnType>, d: Dialect,
                          rows: seq<seq<string>>, b: nat)
    requires b >= 1 && Typed(columns, types) && |rows| == 0
    ensures InsertBlocks(tableName, columns, types, d, rows, b) == []
  {
  }

  /** The statements of the rows before offset i, followed by the statement of
      the batch at i, are the statements of the rows up to the batch's end. */
  lemma NextBlock(tableName: string, columns: seq<string>, types: map<string, ColumnType>, d: Dialect,
                  rows: seq<seq<string>>, b: nat, i: nat, n: nat, block: string)
    requires Typed(columns, types) && Rectangular(rows, |columns|)
    requires b >= 1 && i % b == 0 && i < n <= |rows|
    requires Rectangular(rows[i..Min(i + b, n)], |columns|)
    requires block == InsertBatchText(tableName, columns, types, d, rows[i..Min(i + b, n)])
    ensures Rectangular(rows[..i], |columns|) && Rectangular(rows[..Min(i + b, n)], |columns|)
    ensures InsertBlocks(tableName, columns, types, d, rows[..i], b) + [block] ==
            InsertBlocks(tableName, columns, types, d, rows[..Min(i + b, n)], b)
  {
    var next := Min(i + b, n);
    RectangularSlice(rows, |columns|, 0, i);
    TakeSplit(rows, i, next);
    InsertBlocksSnoc(tableName, columns, types, d, rows[..i], rows[i..next], b);
  }

  lemma GenerateDone(tableName: string, columns: seq<string>, types: map<string, ColumnType>, d: Dialect,
                     rows: seq<seq<string>>, b: nat, includeCreateTable: bool, dryRun: bool,
                     output: seq<string>, prefix: seq<string>)
    requires Typed(columns, types) && Rectangular(rows, |columns|) && b >= 1
    requires Rectangular(rows[..RowLimit(|rows|, dryRun)], |columns|)
    requires prefix == if includeCreateTable then [CreateTableText(tableName, columns, types)] else []
    requires output == prefix + InsertBlocks(tableName, columns, types, d, rows[..RowLimit(|rows|, dryRun)], b)
    ensures output == OutputBlocks(tableName, columns, types, d, rows, b, includeCreateTable, dryRun)
  {
  }

  // ---- What `generate` returns ----------------------------------------------

  /** There is one INSERT per batch of the visited rows: ceil(min(limit, R) / B)
      of them, after the CREATE TABLE block when it was asked for. */
  lemma OutputBlockCount(tableName: string, columns: seq<string>, types: map<string, ColumnType>, d: Dialect,
                         rows: seq<seq<string>>, b: nat, includeCreateTable: bool, dryRun: bool)
    requires b >= 1 && Rectangular(rows, |columns|) && Typed(columns, types)
    ensures |OutputBlocks(tableName, columns, types, d, rows, b, includeCreateTable, dryRun)| ==
      (if includeCreateTable then 1 else 0) + CeilDiv(RowLimit(|rows|, dryRun), b)
  {
    ChunksCount(rows[..RowLimit(|rows|, dryRun)], b);
  }

  /** The batches rendered, put back together, are exactly the rows visited:
      every row on a normal run, the first five (or all, when fewer) on a dry
      run; each in one statement and in file order. */
  lemma OutputCoversRows(rows: seq<seq<string>>, b: nat, dryRun: bool)
    requires b >= 1
    ensures !dryRun ==> Flatten(Chunks(rows[..RowLimit(|rows|, dryRun)], b)) == rows
    ensures dryRun ==> Flatten(Chunks(rows[..RowLimit(|rows|, dryRun)], b)) == rows[..Min(5, |rows|)]
  {
    ChunksFlatten(rows[..RowLimit(|rows|, dryRun)], b);
    TakeAll(rows);
  }

  /** Every INSERT block is one complete statement on the table: it starts with
      `INSERT INTO <table> (` and ends with `;` and a newline. */
  lemma InsertBlocksShape(tableName: string, columns: seq<string>, types: map<string, ColumnType>, d: Dialect,
                          rows: seq<seq<string>>, b: nat)
    requires b >= 1 && Rectangular(rows, |columns|) && Typed(columns, types)
    ensures forall k :: 0 <= k < |InsertBlocks(tableName, columns, types, d, rows, b)| ==>
      StartsWith(InsertBlocks(tableName, columns, types, d, rows, b)[k], "INSERT INTO " + tableName + " (") &&
      EndsWith(InsertBlocks(tableName, columns, types, d, rows, b)[k], ";\n")
  {
    var batches := Chunks(rows, b);
    ChunksSizes(rows, b);
    ChunksRectangular(rows, |columns|, b);
    forall k | 0 <= k < |batches|
      ensures StartsWith(InsertBatchText(tableName, columns, types, d, batches[k]), "INSERT INTO " + tableName + " (")
      ensures EndsWith(InsertBatchText(tableName, columns, types, d, batches[k]), ";\n")
    {
      InsertBatchShape(tableName, columns, types, d, batches[k]);
    }
  }

  /** The output is the CREATE TABLE block (first, and only when asked for)
      followed by INSERT statements and nothing else: in particular no block
      is a `--` comment line, on a dry run or otherwise. */
  lemma OutputBlockKinds(tableName: string, columns: seq<string>, types: map<string, ColumnType>, d: Dialect,
                         rows: seq<seq<string>>, b: nat, includeCreateTable: bool, dryRun: bool)
    requires b >= 1 && Rectangular(rows, |columns|) && Typed(columns, types)
    ensures var blocks := OutputBlocks(tableName, columns, types, d, rows, b, includeCreateTable, dryRun);
      (includeCreateTable ==> |blocks| > 0 && blocks[0] == CreateTableText(tableName, columns, types)) &&
      (forall k :: (if includeCreateTable then 1 else 0) <= k < |blocks| ==>
         StartsWith(blocks[k], "INSERT INTO " + tableName + " (") && EndsWith(blocks[k], ";\n")) &&
      (forall k :: 0 <= k < |blocks| ==> !StartsWith(blocks[k], "--"))
  {
    var lim := RowLimit(|rows|, dryRun);
    RectangularSlice(rows, |columns|, 0, lim);
    var inserts := InsertBlocks(tableName, columns, types, d, rows[..lim], b);
    var prefix := if includeCreateTable then [CreateTableText(tableName, columns, types)] else [];
    assert OutputBlocks(tableName, columns, types, d, rows, b, includeCreateTable, dryRun) == prefix + inserts;
    InsertBlocksShape(tableName, columns, types, d, rows[..lim], b);
    CreateTableShape(tableName, columns, types);
    AfterPrefix(prefix, inserts, "INSERT INTO " + tableName + " (", ";\n");
    NoCommentBlocks(prefix + inserts, |prefix|, "CREATE TABLE " + tableName + " (", "INSERT INTO " + tableName + " (");
  }

  /** Blocks that all open a statement and end with `;\n` stay so after a prefix. */
  lemma AfterPrefix(prefix: seq<string>, blocks: seq<string>, open: string, close: string)
    requires forall k :: 0 <= k < |blocks| ==> StartsWith(blocks[k], open) && EndsWith(blocks[k], close)
    ensures forall k :: |prefix| <= k < |prefix + blocks| ==>
      StartsWith((prefix + blocks)[k], open) && EndsWith((prefix + blocks)[k], close)
  {
    forall k | |prefix| <= k < |prefix + blocks|
      ensures StartsWith((prefix + blocks)[k], open) && EndsWith((prefix + blocks)[k], close)
    {
      assert (prefix + blocks)[k] == blocks[k - |prefix|];
    }
  }

  /** Blocks that each start with a CREATE or an INSERT opening are no comments. */
  lemma NoCommentBlocks(blocks: seq<string>, first: nat, create: string, insert: string)
    requires |create| > 0 && create[0] == 'C' && |insert| > 0 && insert[0] == 'I'
    requires first <= |blocks| && forall k :: 0 <= k < first ==> StartsWith(blocks[k], create)
    requires forall k :: first <= k < |blocks| ==> StartsWith(blocks[k], insert)
    ensures forall k :: 0 <= k < |blocks| ==> !StartsWith(blocks[k], "--")
  {
    forall k | 0 <= k < |blocks| ensures !StartsWith(blocks[k], "--") {
      if k < first {
        NotBothPrefixes(blocks[k], create, "--");
      } else {
        NotBothPrefixes(blocks[k], insert, "--");
      }
    }
  }

  /** A string cannot start with two texts whose first characters differ. */
  lemma NotBothPrefixes(s: string, p: string, q: string)
    requires |p| > 0 && |q| > 0 && p[0] != q[0]
    requires StartsWith(s, p)
    ensures !StartsWith(s, q)
  {
    assert s[0] == s[..|p|][0];
  }

  /** The generated text starts with the CREATE TABLE statement exactly when it
      was asked for; otherwise, for a non-empty table, with the first INSERT. */
  lemma OutputStartsWithCreateIff(tableName: string, columns: seq<string>, types: map<string, ColumnType>, d: Dialect,
                                  rows: seq<seq<string>>, b: nat, includeCreateTable: bool, dryRun: bool)
    requires b >= 1 && Rectangular(rows, |columns|) && Typed(columns, types)
    ensures var text := Join(OutputBlocks(tableName, columns, types, d, rows, b, includeCreateTable, dryRun), "\n");
      (StartsWith(text, "CREATE TABLE " + tableName + " (") <==> includeCreateTable) &&
      (!includeCreateTable && |rows| > 0 ==> StartsWith(text, "INSERT INTO " + tableName + " ("))
  {
    var blocks := OutputBlocks(tableName, columns, types, d, rows, b, includeCreateTable, dryRun);
    var text := Join(blocks, "\n");
    var create := "CREATE TABLE " + tableName + " (";
    var insert := "INSERT INTO " + tableName + " (";
    OutputBlockKinds(tableName, columns, types, d, rows, b, includeCreateTable, dryRun);
    OutputBlockCount(tableName, columns, types, d, rows, b, includeCreateTable, dryRun);
    JoinEnds(blocks, "\n");
    if includeCreateTable {
      CreateTableShape(tableName, columns, types);
      StartsWithTrans(text, blocks[0], create);
    } else if |blocks| == 0 {
      assert text == "";
    } else {
      StartsWithTrans(text, blocks[0], insert);
      NotBothPrefixes(text, insert, create);
    }
    if !includeCreateTable && |rows| > 0 {
      CeilDivPositive(RowLimit(|rows|, dryRun), b);
    }
  }

  /** A dry run stops at the fifth row only between batches of at least five:
      with a batch size below five and more rows than one batch, a dry run
      still writes two INSERT statements or more. */
  lemma DryRunSeveralInserts(tableName: string, columns: seq<string>, types: map<string, ColumnType>, d: Dialect,
                             rows: seq<seq<string>>, b: nat, includeCreateTable: bool)
    requires 1 <= b < 5 && |rows| > b && Rectangular(rows, |columns|) && Typed(columns, types)
    ensures |OutputBlocks(tableName, columns, types, d, rows, b, includeCreateTable, true)| >=
      (if includeCreateTable then 1 else 0) + 2
  {
    OutputBlockCount(tableName, columns, types, d, rows, b, includeCreateTable, true);
    CeilDivAtLeastTwo(RowLimit(|rows|, true), b);
  }

  /** With batches of five rows or more a dry run writes exactly one INSERT,
      holding the first five rows (all of them, when there are fewer). */
  lemma DryRunOneInsert(tableName: string, columns: seq<string>, types: map<string, ColumnType>, d: Dialect,
                        rows: seq<seq<string>>, b: nat, includeCreateTable: bool)
    requires b >= 5 && |rows| > 0 && Rectangular(rows, |columns|) && Typed(columns, types)
    ensures |OutputBlocks(tableName, columns, types, d, rows, b, includeCreateTable, true)| ==
      (if includeCreateTable then 1 else 0) + 1
    ensures Chunks(rows[..RowLimit(|rows|, true)], b) == [rows[..Min(5, |rows|)]]
  {
    OutputBlockCount(tableName, columns, types, d, rows, b, includeCreateTable, true);
    DivOne(RowLimit(|rows|, true) + b - 1, b);
  }

  /** 250 rows in batches of 100 make three INSERT statements; a dry run of the
      same table makes one. */
  lemma BatchSplitExample(tableName: string, columns: seq<string>, types: map<string, ColumnType>, d: Dialect,
                          rows: seq<seq<string>>, includeCreateTable: bool)
    requires |rows| == 250 && Rectangular(rows, |columns|) && Typed(columns, types)
    ensures |OutputBlocks(tableName, columns, types, d, rows, 100, includeCreateTable, false)| ==
      (if includeCreateTable then 1 else 0) + 3
    ensures |OutputBlocks(tableName, columns, types, d, rows, 100, includeCreateTable, true)| ==
      (if includeCreateTable then 1 else 0) + 1
  {
    OutputBlockCount(tableName, columns, types, d, rows, 100, includeCreateTable, false);
    OutputBlockCount(tableName, columns, types, d, rows, 100, includeCreateTable, true);
  }

  /** The three batches of 250 rows in batches of 100 hold rows 0-99, 100-199
      and 200-249. */
  lemma BatchSplitRows(rows: seq<seq<string>>)
    requires |rows| == 250
    ensures Chunks(rows, 100) == [rows[..100], rows[100..200], rows[200..]]
  {
    assert rows[100..][100..] == rows[200..];
    assert rows[100..][..100] == rows[100..200];
    assert Chunks(rows[200..], 100) == [rows[200..]];
    assert Chunks(rows[100..], 100) == [rows[100..200]] + [rows[200..]];
  }

  /** A dry run in batches of two renders the first five rows as batches of
      2, 2 and 1 rows. */
  lemma DryRunBatchesOfTwo(rows: seq<seq<string>>)
    requires |rows| >= 5
    ensures var batches := Chunks(rows[..RowLimit(|rows|, true)], 2);
      |batches| == 3 && batches[0] == rows[..2] && batches[1] == rows[2..4] && batches[2] == rows[4..5]
  {
    var r := rows[..5];
    assert r[2..][2..] == rows[4..5];
    assert Chunks(r[2..][2..], 2) == [rows[4..5]];
    assert Chunks(r[2..], 2) == [r[2..][..2]] + [rows[4..5]];
  }

  /** The CREATE TABLE line of column i, written as the source builds it. */
  lemma ColumnLineText(tableName: string, columns: seq<string>, types: map<string, ColumnType>, i: nat)
    requires Typed(columns, types) && i < |columns|
    ensures CreateTableLines(tableName, columns, types)[i + 1] ==
      "  " + columns[i] + " " + TypeName(types[columns[i]]) + (if i < |columns| - 1 then "," else "")
  {
    ColumnLineAt(tableName, columns, types, i);
  }

  class SQLGenerator {
    const tableName: string
    const dialect: Dialect
    const batchSize: nat
    /** The loaded table: its (renamed) column names and its rows. */
    const columns: seq<string>
    const rows: seq<seq<string>>
    /** The inferred type of every column. */
    var columnTypes: map<string, ColumnType>

    /** What the rendering methods rely on: positive batch size, a non-empty
        rectangular table, one type per column. */
    ghost predicate Valid()
      reads this
    {
      batchSize >= 1 && |rows| > 0 && |columns| > 0 &&
      Rectangular(rows, |columns|) && Typed(columns, columnTypes) && |columnTypes| == |columns|
    }

    /** Every column's type is the one inferred from its cells. */
    ghost predicate Inferred()
      reads this
      requires Valid()
    {
      Distinct(columns) && TypesInferred(columns, rows, columnTypes)
    }

    /** The text `generate` returns. */
    ghost function Output(includeCreateTable: bool, dryRun: bool): string
      reads this
      requires Valid()
    {
      Join(OutputBlocks(tableName, columns, columnTypes, dialect, rows, batchSize, includeCreateTable, dryRun), "\n")
    }

    /** `__init__` once `_load_csv` has produced the table. */
    constructor (tableName: string, dialect: Dialect, batchSize: nat, table: Table)
      requires batchSize >= 1
      requires |table.rows| > 0 && |table.columns| > 0
      requires Rectangular(table.rows, |table.columns|) && Distinct(table.columns)
      ensures Valid() && Inferred()
      ensures this.tableName == tableName && this.dialect == dialect && this.batchSize == batchSize
      ensures columns == table.columns && rows == table.rows
    {
      this.tableName := tableName;
      this.dialect := dialect;
      this.batchSize := batchSize;
      columns := table.columns;
      rows := table.rows;
      new;
      columnTypes := InferTypes();
      DistinctCard(columns);
    }

    /** `SQLGenerator(...)` on an already parsed CSV file: the load error, or a
        generator over the renamed table. */
    static method Create(tableName: string, dialect: Dialect, batchSize: nat,
                         header: seq<string>, cells: seq<seq<string>>, mapping: map<string, string>)
      returns (r: Result<SQLGenerator, string>)
      requires batchSize >= 1
      requires Rectangular(cells, |header|)
      requires Distinct(Rename(header, mapping))
      ensures r.Err? <==> |cells| == 0 || |header| == 0
      ensures r.Err? ==> r.error == EmptyError
      ensures r.Ok? ==> fresh(r.value) && r.value.Valid() && r.value.Inferred()
      ensures r.Ok? ==> r.value.columns == Rename(header, mapping) && r.value.rows == cells
      ensures r.Ok? ==> r.value.tableName == tableName && r.value.dialect == dialect && r.value.batchSize == batchSize
    {
      LoadTableSpec(header, cells, mapping);
      var loaded := LoadTable(header, cells, mapping);
      if loaded.Err? {
        return Err(loaded.error);
      }
      var g := new SQLGenerator(tableName, dialect, batchSize, loaded.value);
      return Ok(g);
    }

    /** `_infer_types`: one entry per column, in column order. */
    method InferTypes() returns (types: map<string, ColumnType>)
      requires Rectangular(rows, |columns|) && Distinct(columns)
      ensures TypesInferred(columns, rows, types)
    {
      ghost var ts := InferredTypes(rows, |columns|);
      types := map[];
      var j := 0;
      while j < |columns|
        invariant 0 <= j <= |columns|
        invariant forall c :: c in types <==> c in columns[..j]
        invariant forall k :: 0 <= k < j ==> types[columns[k]] == ts[k]
      {
        TakeSnoc(columns, j);
        types := types[columns[j] := InferColumnType(Column(rows, j))];
        j := j + 1;
      }
      TakeAll(columns);
      KeysAreColumns(types, columns);
    }

    /** `_generate_create_table`. */
    method CreateTable() returns (text: string)
      requires Valid()
      ensures text == CreateTableText(tableName, columns, columnTypes)
    {
      ghost var all := CreateTableLines(tableName, columns, columnTypes);
      var lines := ["CREATE TABLE " + tableName + " ("];
      TakeSnoc(all, 0);
      var i := 0;
      while i < |columns|
        invariant 0 <= i <= |columns|
        invariant lines == all[..i + 1]
      {
        var comma := if i < |columnTypes| - 1 then "," else "";
        ColumnLineText(tableName, columns, columnTypes, i);
        TakeSnoc(all, i + 1);
        lines := lines + ["  " + columns[i] + " " + TypeName(columnTypes[columns[i]]) + comma];
        i := i + 1;
      }
      lines := lines + [");\n"];
      TakeSnoc(all, |columns| + 1);
      TakeAll(all);
      text := Join(lines, "\n");
    }

    /** `_generate_insert_batch`: nothing for no rows, otherwise one statement.
        Both dialect branches of the source build the same text. */
    method InsertBatch(batch: seq<seq<string>>) returns (text: string)
      requires Valid() && Rectangular(batch, |columns|)
      ensures text == InsertBatchText(tableName, columns, columnTypes, dialect, batch)
    {
      if |batch| == 0 {
        return "";
      }
      var header := Join(columns, ", ");
      var valuesList: seq<string> := [];
      var i := 0;
      while i < |batch|
        invariant 0 <= i <= |batch|
        invariant Rectangular(batch[..i], |columns|)
        invariant valuesList == TupleTexts(batch[..i], columns, columnTypes, dialect)
      {
        assert batch[i] in batch;
        TakeSnoc(batch, i);
        TupleTextsSnoc(batch[..i], batch[i], columns, columnTypes, dialect);
        var values := RowValues(batch[i], columns, columnTypes, dialect);
        valuesList := valuesList + ["(" + Join(values, ", ") + ")"];
        i := i + 1;
      }
      TakeAll(batch);
      if dialect == MySQL {
        var valuesStr := Join(valuesList, ",\n  ");
        text := "INSERT INTO " + tableName + " (" + header + ")\nVALUES\n  " + valuesStr + ";\n";
      } else {
        var valuesStr := Join(valuesList, ",\n  ");
        text := "INSERT INTO " + tableName + " (" + header + ")\nVALUES\n  " + valuesStr + ";\n";
      }
    }

    /** The part of the batch at offset i that `generate` renders: all of it,
        except that a dry run stops at row 5. So it is always the next batch
        of the first min(limit, R) rows. */
    method Truncate(batch: seq<seq<string>>, i: nat, dryRun: bool) returns (chunk: seq<seq<string>>)
      requires Valid() && i <= |rows| && (dryRun ==> i < 5)
      requires batch == rows[i..Min(i + batchSize, |rows|)]
      ensures chunk == rows[i..Min(i + batchSize, RowLimit(|rows|, dryRun))]
    {
      var cut := if dryRun then Min(batchSize, 5 - i) else batchSize;
      chunk := batch[..Min(cut, |batch|)];
    }

    /** One pass of `generate`'s loop at offset i: the batch there, cut short
        on a dry run so that no row past the fifth is rendered, rendered as one
        INSERT. That statement is the one the statement list of the rows seen
        so far is extended by. */
    method NextInsert(batch: seq<seq<string>>, i: nat, dryRun: bool) returns (block: string)
      requires Valid() && i % batchSize == 0 && i < RowLimit(|rows|, dryRun) && (dryRun ==> i < 5)
      requires batch == rows[i..Min(i + batchSize, |rows|)]
      ensures Rectangular(rows[..i], |columns|) && Rectangular(rows[..Min(i + batchSize, RowLimit(|rows|, dryRun))], |columns|)
      ensures InsertBlocks(tableName, columns, columnTypes, dialect, rows[..i], batchSize) + [block] ==
              InsertBlocks(tableName, columns, columnTypes, dialect, rows[..Min(i + batchSize, RowLimit(|rows|, dryRun))], batchSize)
    {
      var chunk := Truncate(batch, i, dryRun);
      var n := RowLimit(|rows|, dryRun);
      RectangularSlice(rows, |columns|, i, Min(i + batchSize, n));
      block := InsertBatch(chunk);
      NextBlock(tableName, columns, columnTypes, dialect, rows, batchSize, i, n, block);
    }

    /** `generate`: the optional CREATE TABLE block, then one INSERT per batch
        of the first min(limit, R) rows, joined with newlines. */
    method Generate(includeCreateTable: bool, dryRun: bool) returns (text: string)
      requires Valid()
      ensures text == Output(includeCreateTable, dryRun)
    {
      var output: seq<string> := [];
      if includeCreateTable {
        var create := CreateTable();
        output := output + [create];
      }
      ghost var prefix := output;
      var limit := if dryRun then 5 else |rows|;
      var n := Min(limit, |rows|);
      var i := 0;
      ghost var done := 0;
      RectangularSlice(rows, |columns|, 0, 0);
      InsertBlocksEmpty(tableName, columns, columnTypes, dialect, rows[..0], batchSize);
      AppendEmpty(output);
      while i < n
        invariant i % batchSize == 0 && done == Min(i, n)
        invariant Rectangular(rows[..done], |columns|)
        invariant output == prefix + InsertBlocks(tableName, columns, columnTypes, dialect, rows[..done], batchSize)
      {
        var batch := rows[i..Min(i + batchSize, |rows|)];
        if dryRun && i >= 5 {
          break;
        }
        var block := NextInsert(batch, i, dryRun);
        AppendStep(output, prefix, InsertBlocks(tableName, columns, columnTypes, dialect, rows[..i], batchSize),
                   InsertBlocks(tableName, columns, columnTypes, dialect, rows[..Min(i + batchSize, n)], batchSize), block);
        DivShift(i, batchSize);
        output := output + [block];
        done := Min(i + batchSize, n);
        i := i + batchSize;
      }
      GenerateDone(tableName, columns, columnTypes, dialect, rows, batchSize, includeCreateTable, dryRun, output, prefix);
      text := Join(output, "\n");
    }
  }
}
