/** Building the table the generator works on (generator.py `_load_csv`): an
    already parsed header and rows of cells, rejected when empty, with the
    column renaming applied. */
module Load {
  import opened Text
  import opened Wrappers
  import opened Render

  /** Column names in header order and the data rows in file order. */
  datatype Table = Table(columns: seq<string>, rows: seq<seq<string>>)

  /** The prefix `_load_csv` puts on every error it lets escape. */
  const LoadFailure: string := "Failed to load CSV: "

  /** The reason `_load_csv` gives for a table without data. */
  const EmptyReason: string := "CSV file is empty"

  /** The message of the error for an empty table, as it reaches the caller
      after the outer wrapping. */
  const EmptyError: string := LoadFailure + EmptyReason

  /** The renaming applied to one column name. */
  function RenameColumn(column: string, mapping: map<string, string>): string {
    if column in mapping then mapping[column] else column
  }

  function Rename(header: seq<string>, mapping: map<string, string>): seq<string> {
    seq(|header|, i requires 0 <= i < |header| => RenameColumn(header[i], mapping))
  }

  /** The table `_load_csv` returns, or its error. A table with no data rows
      (or no columns: pandas calls either empty) is refused; the renaming is
      applied only when the mapping has entries. */
  function LoadTable(header: seq<string>, cells: seq<seq<string>>, mapping: map<string, string>):
    Result<Table, string>
    requires Rectangular(cells, |header|)
  {
    if |cells| == 0 || |header| == 0 then Err(EmptyError)
    else if mapping != map[] then Ok(Table(Rename(header, mapping), cells))
    else Ok(Table(header, cells))
  }

  /** Renaming keeps the number and order of the columns; a column named in
      the mapping takes its new name, the others keep theirs. */
  lemma RenamePointwise(header: seq<string>, mapping: map<string, string>)
    ensures |Rename(header, mapping)| == |header|
    ensures forall i :: 0 <= i < |header| && header[i] in mapping ==> Rename(header, mapping)[i] == mapping[header[i]]
    ensures forall i :: 0 <= i < |header| && header[i] !in mapping ==> Rename(header, mapping)[i] == header[i]
  {
  }

  /** Mapping keys that name no column have no effect. */
  lemma RenameIgnoresUnmatchedKey(header: seq<string>, mapping: map<string, string>, key: string, name: string)
    requires key !in header
    ensures Rename(header, mapping[key := name]) == Rename(header, mapping)
  {
    forall i | 0 <= i < |header|
      ensures RenameColumn(header[i], mapping[key := name]) == RenameColumn(header[i], mapping)
    {
      assert header[i] != key;
    }
  }

  /** With no mapping, or a mapping that names no column, the header is unchanged;
      so skipping the rename for an empty mapping changes nothing. */
  lemma RenameWithoutMatches(header: seq<string>, mapping: map<string, string>)
    requires forall i :: 0 <= i < |header| ==> header[i] !in mapping
    ensures Rename(header, mapping) == header
  {
  }

  /** Loading fails exactly for an empty table, with the "CSV file is empty"
      message; otherwise the rows are kept as they are and the columns are the
      renamed header. */
  lemma LoadTableSpec(header: seq<string>, cells: seq<seq<string>>, mapping: map<string, string>)
    requires Rectangular(cells, |header|)
    ensures LoadTable(header, cells, mapping).Err? <==> |cells| == 0 || |header| == 0
    ensures LoadTable(header, cells, mapping).Err? ==>
      StartsWith(LoadTable(header, cells, mapping).error, LoadFailure) &&
      EndsWith(LoadTable(header, cells, mapping).error, EmptyReason)
    ensures LoadTable(header, cells, mapping).Ok? ==>
      LoadTable(header, cells, mapping).value == Table(Rename(header, mapping), cells)
  {
    EndsWithConcat(LoadFailure, EmptyReason);
    StartsWithPrefix(LoadFailure, EmptyReason);
    if mapping == map[] {
      RenameWithoutMatches(header, mapping);
    }
  }
}
