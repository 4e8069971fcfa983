/** Rendering one cell as an SQL literal (generator.py `_escape_value`). */
module Escape {
  import opened Text
  import opened Wrappers
  import opened ColumnTypes
  import opened Inference

  /** A cell: a string, or a null a caller may pass in (pandas' missing value). */
  datatype Cell = Null | Str(text: string)

  /** The three SQL dialects; only boolean literals differ between them. */
  datatype Dialect = PostgreSQL | MySQL | SQLite

  /** Every occurrence of c doubled (a string replace of c by cc). */
  function DoubleChar(s: string, c: char): (r: string)
    ensures |r| == |s| + Count(s, c)
  {
    if |s| == 0 then ""
    else (if s[0] == c then [c, c] else [s[0]]) + DoubleChar(s[1..], c)
  }

  lemma {:induction false} DoubleCharAppend(a: string, b: string, c: char)
    ensures DoubleChar(a + b, c) == DoubleChar(a, c) + DoubleChar(b, c)
    decreases |a|
  {
    if |a| == 0 {
      assert a + b == b;
    } else {
      assert (a + b)[0] == a[0];
      assert (a + b)[1..] == a[1..] + b;
      DoubleCharAppend(a[1..], b, c);
    }
  }

  /** The body of a string literal: backslashes doubled first, then quotes. */
  function EscapeBody(s: string): string {
    DoubleChar(DoubleChar(s, '\\'), '\'')
  }

  /** The quoted literal for a DATE or VARCHAR value. */
  function EscapeString(s: string): string {
    "'" + EscapeBody(s) + "'"
  }

  /** Every string literal starts and ends with a single quote. */
  lemma EscapeStringQuoted(s: string)
    ensures var r := EscapeString(s); |r| >= 2 && r[0] == '\'' && r[|r| - 1] == '\''
  {
  }

  /** What one character becomes inside a literal. */
  function EscapeChar(x: char): string {
    if x == '\\' then "\\\\" else if x == '\'' then "''" else [x]
  }

  /** The two successive replacements act character by character. */
  lemma EscapeBodyCons(x: char, t: string)
    ensures EscapeBody([x] + t) == EscapeChar(x) + EscapeBody(t)
  {
    var head := if x == '\\' then "\\\\" else [x];
    assert ([x] + t)[0] == x && ([x] + t)[1..] == t;
    assert DoubleChar([x] + t, '\\') == head + DoubleChar(t, '\\');
    DoubleCharAppend(head, DoubleChar(t, '\\'), '\'');
    if x == '\\' {
      assert DoubleChar(head, '\'') == "\\\\" by {
        assert head[1..] == "\\";
        assert DoubleChar("\\", '\'') == "\\" by { assert "\\"[1..] == ""; }
      }
    } else {
      assert DoubleChar(head, '\'') == EscapeChar(x) by { assert head[1..] == ""; }
    }
  }

  /** Escaping works piecewise: the body of a concatenation is the
      concatenation of the bodies. */
  lemma EscapeBodyAppend(a: string, b: string)
    ensures EscapeBody(a + b) == EscapeBody(a) + EscapeBody(b)
  {
    DoubleCharAppend(a, b, '\\');
    DoubleCharAppend(DoubleChar(a, '\\'), DoubleChar(b, '\\'), '\'');
  }

  lemma {:induction false} EscapeBodyLength(s: string)
    ensures |EscapeBody(s)| == |s| + Count(s, '\\') + Count(s, '\'')
    decreases |s|
  {
    if |s| > 0 {
      assert s == [s[0]] + s[1..];
      EscapeBodyCons(s[0], s[1..]);
      EscapeBodyLength(s[1..]);
    }
  }

  /** A literal's length is the value's, plus one per backslash and per quote,
      plus the two enclosing quotes. */
  lemma EscapeStringLength(s: string)
    ensures |EscapeString(s)| == |s| + Count(s, '\\') + Count(s, '\'') + 2
  {
    EscapeBodyLength(s);
  }

  /** Reads back a literal body: a backslash or quote must come doubled. */
  function Undouble(e: string): Option<string> {
    if |e| == 0 then Some("")
    else if e[0] == '\\' || e[0] == '\'' then
      if |e| >= 2 && e[1] == e[0] then
        match Undouble(e[2..])
        case None => None
        case Some(r) => Some([e[0]] + r)
      else None
    else
      match Undouble(e[1..])
      case None => None
      case Some(r) => Some([e[0]] + r)
  }

  /** The inverse of the escape: the string a quoted literal denotes when a
      backslash and a quote each come doubled, as MySQL reads string literals
      by default; None when e is not such a literal. */
  function Unescape(e: string): Option<string> {
    if |e| >= 2 && e[0] == '\'' && e[|e| - 1] == '\'' then Undouble(e[1..|e| - 1]) else None
  }

  lemma {:induction false} UndoubleEscapeBody(s: string)
    ensures Undouble(EscapeBody(s)) == Some(s)
    decreases |s|
  {
    if |s| == 0 {
    } else {
      var x, t := s[0], s[1..];
      assert s == [x] + t;
      EscapeBodyCons(x, t);
      UndoubleEscapeBody(t);
      var e := EscapeChar(x) + EscapeBody(t);
      if x == '\\' || x == '\'' {
        assert e[0] == x && e[1] == x && e[2..] == EscapeBody(t);
      } else {
        assert e[0] == x && e[1..] == EscapeBody(t);
      }
    }
  }

  /** Unescaping a literal gives back the value it was made from. */
  lemma EscapeStringRoundTrip(s: string)
    ensures Unescape(EscapeString(s)) == Some(s)
  {
    var e := EscapeString(s);
    assert e[1..|e| - 1] == EscapeBody(s);
    UndoubleEscapeBody(s);
  }

  /** Distinct values give distinct literals. */
  lemma EscapeStringInjective(s: string, t: string)
    requires EscapeString(s) == EscapeString(t)
    ensures s == t
  {
    EscapeStringRoundTrip(s);
    EscapeStringRoundTrip(t);
  }

  /** A value with no backslash and no quote is its own literal body. */
  lemma {:induction false} EscapeBodyPlain(s: string)
    requires forall i :: 0 <= i < |s| ==> s[i] != '\\' && s[i] != '\''
    ensures EscapeBody(s) == s
    decreases |s|
  {
    if |s| > 0 {
      assert s == [s[0]] + s[1..];
      EscapeBodyCons(s[0], s[1..]);
      EscapeBodyPlain(s[1..]);
    }
  }

  // ---- Worked values --------------------------------------------------------
  // Each example names its value through a parameter equal to the literal, so
  // that the escape is unfolded one character at a time by the lemmas above
  // rather than all at once on the literal.

  /** `O'Brien` becomes `'O''Brien'`: the quote is doubled. */
  lemma EscapeQuoteExample(s: string)
    requires s == "O'Brien"
    ensures EscapeString(s) == "'O''Brien'"
  {
    QuoteExampleBody(s);
  }

  lemma QuoteExampleBody(s: string)
    requires s == "O'Brien"
    ensures EscapeBody(s) == "O''Brien"
  {
    QuoteExampleSplit(s);
    EscapeBodyCons('O', s[1..]);
    EscapeBodyCons('\'', s[2..]);
    QuoteExampleTail(s[2..]);
  }

  lemma QuoteExampleSplit(s: string)
    requires s == "O'Brien"
    ensures s == ['O'] + s[1..] && s[1..] == ['\''] + s[2..] && s[2..] == "Brien"
  {
  }

  lemma QuoteExampleTail(t: string)
    requires t == "Brien"
    ensures EscapeChar('O') + (EscapeChar('\'') + EscapeBody(t)) == "O''Brien"
  {
    EscapeBodyPlain(t);
  }

  /** `C:\path` becomes `'C:\\path'`: the backslash is doubled. */
  lemma EscapeBackslashExample(s: string)
    requires s == "C:\\path"
    ensures EscapeString(s) == "'C:\\\\path'"
  {
    BackslashExampleBody(s);
  }

  lemma BackslashExampleBody(s: string)
    requires s == "C:\\path"
    ensures EscapeBody(s) == "C:\\\\path"
  {
    BackslashExampleSplit(s);
    EscapeBodyCons('C', s[1..]);
    EscapeBodyCons(':', s[2..]);
    EscapeBodyCons('\\', s[3..]);
    BackslashExampleTail(s[3..]);
  }

  lemma BackslashExampleSplit(s: string)
    requires s == "C:\\path"
    ensures s == ['C'] + s[1..] && s[1..] == [':'] + s[2..] && s[2..] == ['\\'] + s[3..] && s[3..] == "path"
  {
  }

  lemma BackslashExampleTail(t: string)
    requires t == "path"
    ensures EscapeChar('C') + (EscapeChar(':') + (EscapeChar('\\') + EscapeBody(t))) == "C:\\\\path"
  {
    EscapeBodyPlain(t);
  }

  /** The rendered form of one cell in a column of type t. */
  function EscapeValue(v: Cell, t: ColumnType, d: Dialect): string {
    match v
    case Null => "NULL"
    case Str(s) =>
      if s == "" then "NULL"
      else if t == Integer || t == Decimal then s
      else if t == Boolean then
        var b := IsTrueLiteral(s);
        if d == MySQL then (if b then "1" else "0") else (if b then "TRUE" else "FALSE")
      else EscapeString(s)
  }

  /** A non-boolean literal read back under `Unescape` (MySQL's reading of a
      string literal) in a column of type t. */
  function ReadLiteral(e: string, t: ColumnType): Option<Cell>
    requires t != Boolean
  {
    if e == "NULL" then Some(Null)
    else if t == Integer || t == Decimal then Some(Str(e))
    else match Unescape(e)
      case None => None
      case Some(s) => Some(Str(s))
  }

  lemma NullIsNotDecimal()
    ensures !IsDecimal("NULL")
  {
    assert Unsigned("NULL") == "NULL";
    assert DotIndex("NULL") == 4;
    assert !IsDigit('N');
  }

  /** For every value its column's type admits, and for the empty string, the
      literal reads back under `ReadLiteral` as the cell: "" as NULL, anything
      else as itself. */
  lemma EscapeValueReadsBack(s: string, t: ColumnType, d: Dialect)
    requires t != Boolean
    requires s == "" || Admits(t, s)
    ensures ReadLiteral(EscapeValue(Str(s), t, d), t) == if s == "" then Some(Null) else Some(Str(s))
  {
    if s != "" {
      if t == Integer || t == Decimal {
        if s == "NULL" { NullIsNotDecimal(); }
      } else {
        EscapeStringRoundTrip(s);
      }
    }
  }

  /** NULL is produced exactly for the empty string (and a null cell), never for
      a value the column's type admits. */
  lemma EscapeNullIff(s: string, t: ColumnType, d: Dialect)
    requires s == "" || Admits(t, s)
    ensures EscapeValue(Str(s), t, d) == "NULL" <==> s == ""
    ensures EscapeValue(Null, t, d) == "NULL"
  {
    if s != "" && (t == Integer || t == Decimal) && s == "NULL" {
      NullIsNotDecimal();
    }
    EscapeStringQuoted(s);
  }

  /** A boolean renders as 1/0 in MySQL and TRUE/FALSE elsewhere, true exactly
      when the value is (case-insensitively) `true` or `1`. */
  lemma BooleanLiteral(s: string, d: Dialect)
    requires s != ""
    ensures var e := EscapeValue(Str(s), Boolean, d);
            (d == MySQL ==> e in {"1", "0"}) &&
            (d != MySQL ==> e in {"TRUE", "FALSE"}) &&
            (e in {"1", "TRUE"} <==> IsTrueLiteral(s))
  {
  }
}
