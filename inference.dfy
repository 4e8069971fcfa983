/** Per-column type inference (generator.py `_infer_column_type`): the first of
    BOOLEAN, INTEGER, DECIMAL(10,2), DATE that every non-empty value of the
    column passes, otherwise VARCHAR(n) wide enough for the longest value. */
module Inference {
  import opened Text
  import opened ColumnTypes

  /** The column's values with the empty strings removed. */
  function NonEmpty(column: seq<string>): (r: seq<string>)
    ensures |r| <= |column|
    ensures forall i :: 0 <= i < |r| ==> r[i] != ""
    ensures forall v :: v in r <==> v in column && v != ""
  {
    if |column| == 0 then []
    else if column[0] == "" then NonEmpty(column[1..])
    else [column[0]] + NonEmpty(column[1..])
  }

  lemma {:induction false} NonEmptyAppend(a: seq<string>, b: seq<string>)
    ensures NonEmpty(a + b) == NonEmpty(a) + NonEmpty(b)
    decreases |a|
  {
    if |a| == 0 {
      assert a + b == b;
    } else {
      assert (a + b)[0] == a[0];
      assert (a + b)[1..] == a[1..] + b;
      NonEmptyAppend(a[1..], b);
    }
  }

  /** Whether a single non-empty value passes the test of type t; for
      VARCHAR(n), whether it fits with the 50 characters of padding. */
  predicate Admits(t: ColumnType, v: string) {
    match t
    case Boolean => IsBooleanLiteral(v)
    case Integer => IsInteger(v)
    case Decimal => IsDecimal(v)
    case Date => IsDate(v)
    case Varchar(n) => |v| + 50 <= n
  }

  /** Every value passes the test of t. */
  predicate AllAdmit(t: ColumnType, values: seq<string>) {
    forall i :: 0 <= i < |values| ==> Admits(t, values[i])
  }

  /** The length of the longest value, 0 when there is none. */
  function MaxLen(values: seq<string>): (m: nat)
    ensures forall i :: 0 <= i < |values| ==> |values[i]| <= m
    ensures |values| > 0 ==> exists i :: 0 <= i < |values| && |values[i]| == m
    ensures |values| == 0 ==> m == 0
  {
    if |values| == 0 then 0
    else
      var rest := MaxLen(values[1..]);
      (if |values[0]| >= rest then |values[0]| else rest)
  }

  /** The order in which the levels are tried. */
  const Levels: seq<ColumnType> := [Boolean, Integer, Decimal, Date]

  /** Position of a type in the precedence order; every VARCHAR comes last. */
  function Rank(t: ColumnType): nat {
    match t
    case Boolean => 0
    case Integer => 1
    case Decimal => 2
    case Date => 3
    case Varchar(_) => 4
  }

  function InferColumnType(column: seq<string>): ColumnType {
    var values := NonEmpty(column);
    if |values| == 0 then Varchar(255)
    else if AllAdmit(Boolean, values) then Boolean
    else if AllAdmit(Integer, values) then Integer
    else if AllAdmit(Decimal, values) then Decimal
    else if AllAdmit(Date, values) then Date
    else Varchar(Max(MaxLen(values) + 50, 255))
  }

  /** Every non-empty value of the column passes the test of the inferred type;
      for VARCHAR(n) that is: n >= |v| + 50 for every value v. */
  lemma InferredTypeAdmitsEveryValue(column: seq<string>, i: nat)
    requires i < |column| && column[i] != ""
    ensures Admits(InferColumnType(column), column[i])
  {
    var values := NonEmpty(column);
    assert column[i] in values;
    var j :| 0 <= j < |values| && values[j] == column[i];
    InferredTypeAdmitsNonEmpty(column);
  }

  lemma InferredTypeAdmitsNonEmpty(column: seq<string>)
    ensures AllAdmit(InferColumnType(column), NonEmpty(column))
  {
    var values := NonEmpty(column);
    if |values| == 0 {
    } else if AllAdmit(Boolean, values) {
    } else if AllAdmit(Integer, values) {
    } else if AllAdmit(Decimal, values) {
    } else if AllAdmit(Date, values) {
    } else {
      assert InferColumnType(column) == Varchar(Max(MaxLen(values) + 50, 255));
      LongestFits(values);
    }
  }

  /** Every value fits a VARCHAR sized from the longest one. */
  lemma LongestFits(values: seq<string>)
    ensures AllAdmit(Varchar(Max(MaxLen(values) + 50, 255)), values)
  {
  }

  /** No type earlier in the precedence order than the inferred one passes
      every non-empty value: each earlier level is refuted by some value. */
  lemma InferredTypeIsFirstLevel(column: seq<string>, k: nat)
    requires exists i :: 0 <= i < |column| && column[i] != ""
    requires k < Rank(InferColumnType(column))
    ensures exists i :: 0 <= i < |column| && column[i] != "" && !Admits(Levels[k], column[i])
  {
    var values := NonEmpty(column);
    var i0 :| 0 <= i0 < |column| && column[i0] != "";
    assert column[i0] in values;
    assert !AllAdmit(Levels[k], values);
    var j :| 0 <= j < |values| && !Admits(Levels[k], values[j]);
    assert values[j] in column;
    var i :| 0 <= i < |column| && column[i] == values[j];
  }

  lemma {:induction false} NonEmptyOfBlankColumn(column: seq<string>)
    requires forall i :: 0 <= i < |column| ==> column[i] == ""
    ensures NonEmpty(column) == []
  {
    if |column| > 0 {
      NonEmptyOfBlankColumn(column[1..]);
    }
  }

  /** A column with no non-empty value is VARCHAR(255). */
  lemma EmptyColumnIsVarchar255(column: seq<string>)
    requires forall i :: 0 <= i < |column| ==> column[i] == ""
    ensures InferColumnType(column) == Varchar(255)
  {
    NonEmptyOfBlankColumn(column);
  }

  /** A VARCHAR width is at least 255, and above 255 only when it is exactly a
      value's length plus 50. */
  lemma VarcharWidth(column: seq<string>)
    requires InferColumnType(column).Varchar?
    ensures InferColumnType(column).length >= 255
    ensures InferColumnType(column).length == 255 ||
            exists i :: 0 <= i < |column| && column[i] != "" &&
                        |column[i]| + 50 == InferColumnType(column).length
  {
    var values := NonEmpty(column);
    var n := InferColumnType(column).length;
    if n != 255 {
      var j :| 0 <= j < |values| && |values[j]| == MaxLen(values);
      assert values[j] in column;
      var i :| 0 <= i < |column| && column[i] == values[j];
    }
  }

  /** Adding an empty cell anywhere never changes the inferred type. */
  lemma EmptyCellIgnored(a: seq<string>, b: seq<string>)
    ensures InferColumnType(a + [""] + b) == InferColumnType(a + b)
  {
    NonEmptyAppend(a + [""], b);
    NonEmptyAppend(a, [""]);
    NonEmptyAppend(a, b);
    assert [""][1..] == [];
    assert NonEmpty([""]) == [];
    assert NonEmpty(a + [""] + b) == NonEmpty(a + b);
  }

  /** "1" and "0" pass the INTEGER test too, but BOOLEAN is tried first. */
  lemma BooleanBeforeInteger()
    ensures IsInteger("1") && IsInteger("0")
    ensures InferColumnType(["1", "0", ""]) == Boolean
  {
    assert IntDigits("1") == "1" && FracDigits("1") == "";
    assert IntDigits("0") == "0" && FracDigits("0") == "";
    assert NonEmpty(["1", "0", ""]) == ["1", "0"];
    assert Lower("1") == "1" && Lower("0") == "0";
  }

  /** A column with no empty cell keeps all of them. */
  lemma {:induction false} NonEmptyOfFullColumn(column: seq<string>)
    requires forall i :: 0 <= i < |column| ==> column[i] != ""
    ensures NonEmpty(column) == column
  {
    if |column| > 0 {
      NonEmptyOfFullColumn(column[1..]);
    }
  }

  /** The converse of `InferredTypeIsFirstLevel`: when every non-empty value
      passes t and one value fails every earlier level, t is the type. */
  lemma FirstPassingLevel(column: seq<string>, t: ColumnType, w: nat)
    requires !t.Varchar?
    requires w < |column| && column[w] != ""
    requires forall i :: 0 <= i < |column| && column[i] != "" ==> Admits(t, column[i])
    requires forall k :: 0 <= k < Rank(t) ==> !Admits(Levels[k], column[w])
    ensures InferColumnType(column) == t
  {
    var values := NonEmpty(column);
    assert column[w] in values;
    forall j | 0 <= j < |values|
      ensures Admits(t, values[j])
    {
      assert values[j] in column;
    }
    assert AllAdmit(t, values);
    if Rank(t) > 0 {
      assert !Admits(Levels[0], column[w]);
      assert !AllAdmit(Boolean, values);
    }
    if Rank(t) > 1 {
      assert !Admits(Levels[1], column[w]);
      assert !AllAdmit(Integer, values);
    }
    if Rank(t) > 2 {
      assert !Admits(Levels[2], column[w]);
      assert !AllAdmit(Decimal, values);
    }
  }

  /** When one value fails all four levels, the column is a VARCHAR. */
  lemma NoLevelPasses(column: seq<string>, w: nat)
    requires w < |column| && column[w] != ""
    requires forall k :: 0 <= k < |Levels| ==> !Admits(Levels[k], column[w])
    ensures InferColumnType(column).Varchar?
  {
    var values := NonEmpty(column);
    assert column[w] in values;
    assert !Admits(Levels[0], column[w]) && !Admits(Levels[1], column[w]);
    assert !Admits(Levels[2], column[w]) && !Admits(Levels[3], column[w]);
    assert !AllAdmit(Boolean, values) && !AllAdmit(Integer, values);
    assert !AllAdmit(Decimal, values) && !AllAdmit(Date, values);
  }

  // ---- The sample table's columns -------------------------------------------

  /** `id`: 1, 2, 3 is INTEGER; 2 is no boolean spelling. */
  lemma IdColumnIsInteger(c: seq<string>)
    requires c == ["1", "2", "3"]
    ensures InferColumnType(c) == Integer
  {
    IdValues(c);
    FirstPassingLevel(c, Integer, 1);
  }

  lemma IdValues(c: seq<string>)
    requires c == ["1", "2", "3"]
    ensures forall i :: 0 <= i < |c| ==> c[i] != "" && IsInteger(c[i])
    ensures !IsBooleanLiteral(c[1])
  {
    DigitsAreInteger(c[0]);
    DigitsAreInteger(c[1]);
    DigitsAreInteger(c[2]);
    assert Lower(c[1]) == "2";
  }

  /** `age`: 25, 30 and an empty cell is INTEGER; the empty cell is skipped. */
  lemma AgeColumnIsInteger(c: seq<string>)
    requires c == ["25", "30", ""]
    ensures InferColumnType(c) == Integer
  {
    AgeValues(c);
    FirstPassingLevel(c, Integer, 0);
  }

  lemma AgeValues(c: seq<string>)
    requires c == ["25", "30", ""]
    ensures c[0] != "" && c[2] == ""
    ensures forall i :: 0 <= i < |c| && c[i] != "" ==> IsInteger(c[i])
    ensures !IsBooleanLiteral(c[0])
  {
    DigitsAreInteger(c[0]);
    DigitsAreInteger(c[1]);
  }

  /** `price`: 19.99, 29.50, 15.00 is DECIMAL(10,2); 19.99 is not whole. */
  lemma PriceColumnIsDecimal(c: seq<string>)
    requires c == ["19.99", "29.50", "15.00"]
    ensures InferColumnType(c) == Decimal
  {
    PriceDecimals(c);
    PriceFirstValue(c);
    FirstPassingLevel(c, Decimal, 0);
  }

  lemma PriceDecimals(c: seq<string>)
    requires c == ["19.99", "29.50", "15.00"]
    ensures forall i :: 0 <= i < |c| ==> c[i] != "" && IsDecimal(c[i])
  {
    PointedDigitsAreDecimal(c[0], 2);
    PointedDigitsAreDecimal(c[1], 2);
    PointedDigitsAreDecimal(c[2], 2);
  }

  lemma PriceFirstValue(c: seq<string>)
    requires c == ["19.99", "29.50", "15.00"]
    ensures !IsBooleanLiteral(c[0]) && !IsInteger(c[0])
  {
    assert Lower(c[0])[0] == '1';
    FractionalDecimal(c[0], 2);
  }

  /** `active`: true, false, 1 is BOOLEAN. */
  lemma ActiveColumnIsBoolean(c: seq<string>)
    requires c == ["true", "false", "1"]
    ensures InferColumnType(c) == Boolean
  {
    ActiveValues(c);
    FirstPassingLevel(c, Boolean, 0);
  }

  lemma ActiveValues(c: seq<string>)
    requires c == ["true", "false", "1"]
    ensures forall i :: 0 <= i < |c| ==> c[i] != "" && IsBooleanLiteral(c[i])
  {
    assert Lower(c[0]) == "true";
    assert Lower(c[1]) == "false";
    assert Lower(c[2]) == "1";
  }

  /** `created`: three `YYYY-MM-DD` values is DATE; the '-' makes them no number. */
  lemma CreatedColumnIsDate(c: seq<string>)
    requires c == ["2024-01-15", "2024-01-16", "2024-01-17"]
    ensures InferColumnType(c) == Date
  {
    CreatedValues(c);
    FirstPassingLevel(c, Date, 0);
  }

  lemma CreatedValues(c: seq<string>)
    requires c == ["2024-01-15", "2024-01-16", "2024-01-17"]
    ensures c[0] != "" && forall i :: 0 <= i < |c| && c[i] != "" ==> Admits(Date, c[i])
    ensures forall k :: 0 <= k < Rank(Date) ==> !Admits(Levels[k], c[0])
  {
    DateValue(c[0]);
    DateValue(c[1]);
    DateValue(c[2]);
  }

  /** A `YYYY-MM-DD` value is a date and fails the three earlier levels. */
  lemma DateValue(v: string)
    requires |v| == 10 && v[4] == '-' && v[7] == '-'
    requires forall i :: 0 <= i < 10 && i != 4 && i != 7 ==> IsDigit(v[i])
    ensures Admits(Date, v)
    ensures forall k :: 0 <= k < Rank(Date) ==> !Admits(Levels[k], v)
  {
    StrayCharNotDecimal(v, 4);
    assert !IsBooleanLiteral(v);
    assert !Admits(Levels[0], v) && !Admits(Levels[1], v) && !Admits(Levels[2], v);
  }

  /** `name`: John, Jane, Bob is VARCHAR(255): John fails every level, and the
      longest value plus 50 stays below 255. */
  lemma NameColumnIsVarchar255(c: seq<string>)
    requires c == ["John", "Jane", "Bob"]
    ensures InferColumnType(c) == Varchar(255)
  {
    NameValues(c);
    NoLevelPasses(c, 0);
    VarcharWidth(c);
  }

  lemma NameValues(c: seq<string>)
    requires c == ["John", "Jane", "Bob"]
    ensures c[0] != "" && forall i :: 0 <= i < |c| ==> |c[i]| <= 4
    ensures !IsBooleanLiteral(c[0]) && !IsDecimal(c[0]) && !IsInteger(c[0]) && !IsDate(c[0])
  {
    assert Lower(c[0])[0] == 'j';
    StrayCharNotDecimal(c[0], 0);
  }
}
