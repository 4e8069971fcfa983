/** The SQL column types the generator infers, their rendered names, and the
    per-value tests behind each level of inference (generator.py `_is_integer`,
    `_is_decimal`, `_is_date` and the boolean literal test). */
module ColumnTypes {
  import opened Text
  import opened Wrappers

  /** One of the five types a column can be given. */
  datatype ColumnType = Boolean | Integer | Decimal | Date | Varchar(length: nat)

  /** The type as written into CREATE TABLE. */
  function TypeName(t: ColumnType): (r: string)
    ensures |r| > 0 && r[|r| - 1] != ','
  {
    match t
    case Boolean => "BOOLEAN"
    case Integer => "INTEGER"
    case Decimal => "DECIMAL(10,2)"
    case Date => "DATE"
    case Varchar(n) => "VARCHAR(" + NatToString(n) + ")"
  }

  /** Reads a type back from its name: the inverse of TypeName. */
  function ParseTypeName(r: string): Option<ColumnType> {
    if r == "BOOLEAN" then Some(Boolean)
    else if r == "INTEGER" then Some(Integer)
    else if r == "DECIMAL(10,2)" then Some(Decimal)
    else if r == "DATE" then Some(Date)
    else if |r| >= 9 && r[..8] == "VARCHAR(" && r[|r| - 1] == ')' && IsDigits(r[8..|r| - 1])
    then Some(Varchar(DigitsValue(r[8..|r| - 1])))
    else None
  }

  /** Every type is recovered from its name, so distinct types have distinct
      names and dispatching on the type (as this model does) is the same as
      dispatching on the name string (as the source does). */
  lemma TypeNameRoundTrip(t: ColumnType)
    ensures ParseTypeName(TypeName(t)) == Some(t)
  {
    if t.Varchar? {
      var digits := NatToString(t.length);
      var r := TypeName(t);
      assert r == "VARCHAR(" + digits + ")";
      assert r[0] == 'V' && |r| >= 9;
      assert r[..8] == "VARCHAR(" && r[8..|r| - 1] == digits;
    }
  }

  lemma TypeNameInjective(a: ColumnType, b: ColumnType)
    requires TypeName(a) == TypeName(b)
    ensures a == b
  {
    TypeNameRoundTrip(a);
    TypeNameRoundTrip(b);
  }

  // ---- BOOLEAN -------------------------------------------------------------

  /** The value, lower-cased, is one of the four boolean spellings true, false, 1, 0. */
  predicate IsBooleanLiteral(s: string) {
    Lower(s) in {"true", "false", "1", "0"}
  }

  /** The value, lower-cased, is true or 1: the spellings read as true. */
  predicate IsTrueLiteral(s: string) {
    Lower(s) in {"true", "1"}
  }

  // ---- INTEGER and DECIMAL(10,2) -------------------------------------------

  /** A decimal literal is an optional sign, integer digits, and optionally a
      point followed by fraction digits, with at least one digit in all. */
  function Unsigned(s: string): string {
    if |s| > 0 && (s[0] == '+' || s[0] == '-') then s[1..] else s
  }

  predicate IsNegative(s: string) { |s| > 0 && s[0] == '-' }

  /** Index of the first '.', or the length when there is none. */
  function DotIndex(u: string): (k: nat)
    ensures k <= |u|
    ensures k < |u| ==> u[k] == '.'
    ensures forall i :: 0 <= i < k ==> u[i] != '.'
  {
    if |u| == 0 then 0 else if u[0] == '.' then 0 else 1 + DotIndex(u[1..])
  }

  function IntDigits(s: string): string {
    var u := Unsigned(s);
    u[..DotIndex(u)]
  }

  function FracDigits(s: string): string {
    var u := Unsigned(s);
    var k := DotIndex(u);
    if k < |u| then u[k + 1..] else []
  }

  /** Stand-in for "Python can convert the value to a float" (generator.py `_is_decimal`). */
  predicate IsDecimal(s: string) {
    IsDigits(IntDigits(s)) && IsDigits(FracDigits(s)) && |IntDigits(s)| + |FracDigits(s)| > 0
  }

  predicate AllZeros(s: string) { forall i :: 0 <= i < |s| ==> s[i] == '0' }

  /** Stand-in for "the value converts to a float with no fractional part"
      (generator.py `_is_integer`):
      a decimal literal whose fraction digits are all zero. */
  predicate IsInteger(s: string) {
    IsDecimal(s) && AllZeros(FracDigits(s))
  }

  /** `_is_integer` converts to a float before anything else, so every integer is a decimal. */
  lemma IntegerIsDecimal(s: string)
    requires IsInteger(s)
    ensures IsDecimal(s)
  {
  }

  /** The exact value of a string of fraction digits, 0.d1 d2 d3 ... */
  function FracValue(ds: string): real
    requires IsDigits(ds)
  {
    if |ds| == 0 then 0.0 else (DigitValue(ds[0]) as real + FracValue(ds[1..])) / 10.0
  }

  /** The exact number a decimal literal denotes. */
  function Value(s: string): real
    requires IsDecimal(s)
  {
    var magnitude := DigitsValue(IntDigits(s)) as real + FracValue(FracDigits(s));
    if IsNegative(s) then -magnitude else magnitude
  }

  lemma {:induction false} FracValueBounds(ds: string)
    requires IsDigits(ds)
    ensures 0.0 <= FracValue(ds) < 1.0
    ensures FracValue(ds) == 0.0 <==> AllZeros(ds)
  {
    if |ds| > 0 {
      FracValueBounds(ds[1..]);
      if AllZeros(ds[1..]) && ds[0] == '0' {
        assert AllZeros(ds) by {
          forall i | 0 <= i < |ds| ensures ds[i] == '0' {
            if i > 0 { assert ds[i] == ds[1..][i - 1]; }
          }
        }
      }
      if AllZeros(ds) {
        assert AllZeros(ds[1..]) by {
          forall i | 0 <= i < |ds| - 1 ensures ds[1..][i] == '0' {
            assert ds[1..][i] == ds[i + 1];
          }
        }
      }
    }
  }

  lemma IntLessFromReal(k: int, n: int)
    requires k as real < n as real
    ensures k < n
  {
  }

  /** A real strictly between n and n + 1 has floor n. */
  lemma FloorBetween(x: real, n: int)
    requires n as real < x < n as real + 1.0
    ensures x.Floor == n
  {
    var k := x.Floor;
    assert k as real <= x < k as real + 1.0;
    IntLessFromReal(k, n + 1);
    IntLessFromReal(n, k + 1);
  }

  lemma PositiveWholeIff(n: nat, f: real)
    requires 0.0 <= f < 1.0
    ensures var x := n as real + f; x == x.Floor as real <==> f == 0.0
  {
    if f != 0.0 {
      FloorBetween(n as real + f, n);
    }
  }

  lemma NegativeWholeIff(n: nat, f: real)
    requires 0.0 <= f < 1.0
    ensures var x := -(n as real + f); x == x.Floor as real <==> f == 0.0
  {
    if f != 0.0 {
      NegativeFractionNotWhole(n, f);
    } else {
      var k := -(n as int);
      assert -(n as real + f) == k as real;
    }
  }

  lemma NegativeFractionNotWhole(n: nat, f: real)
    requires 0.0 < f < 1.0
    ensures var x := -(n as real + f); x != x.Floor as real
  {
    var x := -(n as real + f);
    var m := -(n as int) - 1;
    FloorBetween(x, m);
    assert x > m as real;
  }

  /** A signed magnitude n + f with 0 <= f < 1 is a whole number exactly when f is 0. */
  lemma WholeIffNoFraction(n: nat, f: real, negative: bool)
    requires 0.0 <= f < 1.0
    ensures var x := if negative then -(n as real + f) else n as real + f;
            x == x.Floor as real <==> f == 0.0
  {
    if negative {
      NegativeWholeIff(n, f);
    } else {
      PositiveWholeIff(n, f);
    }
  }

  /** The grammar-level INTEGER test agrees with the numeric one the source
      performs: a decimal literal is INTEGER exactly when its value is whole. */
  lemma IntegerIffWholeValue(s: string)
    requires IsDecimal(s)
    ensures IsInteger(s) <==> Value(s) == Value(s).Floor as real
  {
    FracValueBounds(FracDigits(s));
    WholeIffNoFraction(DigitsValue(IntDigits(s)), FracValue(FracDigits(s)), IsNegative(s));
  }

  // ---- DATE -----------------------------------------------------------------

  predicate DigitsAt(s: string, lo: nat, hi: nat)
    requires lo <= hi <= |s|
  {
    forall i :: lo <= i < hi ==> IsDigit(s[i])
  }

  /** Four digits, dash, two digits, dash, two digits; or two digits, slash,
      two digits, slash, four digits. ASCII digits, the whole string.
      No calendar check: "9999-99-99" is a date. */
  predicate IsDate(s: string) {
    |s| == 10 &&
    ((DigitsAt(s, 0, 4) && s[4] == '-' && DigitsAt(s, 5, 7) && s[7] == '-' && DigitsAt(s, 8, 10)) ||
     (DigitsAt(s, 0, 2) && s[2] == '/' && DigitsAt(s, 3, 5) && s[5] == '/' && DigitsAt(s, 6, 10)))
  }

  // ---- Worked values --------------------------------------------------------

  /** The first '.' of u is at k. */
  lemma {:induction false} DotIndexAt(u: string, k: nat)
    requires k <= |u| && (k < |u| ==> u[k] == '.')
    requires forall i :: 0 <= i < k ==> u[i] != '.'
    ensures DotIndex(u) == k
    decreases k
  {
    if k > 0 {
      assert u[0] != '.';
      DotIndexAt(u[1..], k - 1);
    }
  }

  /** The digits on either side of the first '.' of an unsigned literal. */
  lemma SplitAtDot(s: string, k: nat)
    requires |s| > 0 && s[0] != '+' && s[0] != '-'
    requires k <= |s| && (k < |s| ==> s[k] == '.')
    requires forall i :: 0 <= i < k ==> s[i] != '.'
    ensures IntDigits(s) == s[..k]
    ensures FracDigits(s) == if k < |s| then s[k + 1..] else []
  {
    DotIndexAt(s, k);
  }

  /** A run of digits is an integer. */
  lemma DigitsAreInteger(s: string)
    requires |s| > 0 && IsDigits(s)
    ensures IsInteger(s)
  {
    SplitAtDot(s, |s|);
  }

  /** `<digits>.<digits>` is a decimal. */
  lemma PointedDigitsAreDecimal(s: string, k: nat)
    requires 0 < k < |s| && s[k] == '.'
    requires IsDigits(s[..k]) && IsDigits(s[k + 1..])
    ensures IsDecimal(s)
  {
    assert s[0] == s[..k][0];
    SplitAtDot(s, k);
  }

  /** A value with a character at k that is neither a digit nor '.', and no '.'
      before it, is not a number. */
  lemma StrayCharNotDecimal(s: string, k: nat)
    requires |s| > 0 && s[0] != '+' && s[0] != '-'
    requires k < |s| && !IsDigit(s[k]) && s[k] != '.'
    requires forall i :: 0 <= i < k ==> s[i] != '.'
    ensures !IsDecimal(s)
  {
    assert DotIndex(s) > k;
    assert IntDigits(s)[k] == s[k];
  }

  /** "25", "25.0" and "-7" pass the INTEGER test: a zero fraction and a sign
      do not stop a value from being whole. */
  lemma IntegerExamples()
    ensures IsInteger("25") && IsInteger("25.0") && IsInteger("-7")
  {
    SplitAtDot("25", 2);
    SplitAtDot("25.0", 2);
    assert "25.0"[..2] == "25" && "25.0"[3..] == "0";
    var u := "-7"[1..];
    assert u == "7";
    DotIndexAt(u, 1);
  }

  /** A literal `<digits>.<digits>` whose first fraction digit is not 0 is a
      decimal and not an integer. */
  lemma FractionalDecimal(s: string, k: nat)
    requires 0 < k && k + 1 < |s| && s[k] == '.' && s[k + 1] != '0'
    requires forall i :: 0 <= i < |s| && i != k ==> IsDigit(s[i])
    ensures IsDecimal(s) && !IsInteger(s)
  {
    SplitAtDot(s, k);
    assert FracDigits(s)[0] == s[k + 1];
  }

  /** "19.99" and "29.50" are DECIMAL(10,2) but not INTEGER (the sample
      table's `price` column). */
  lemma DecimalExamples()
    ensures IsDecimal("19.99") && !IsInteger("19.99")
    ensures IsDecimal("29.50") && !IsInteger("29.50")
  {
    FractionalDecimal("19.99", 2);
    FractionalDecimal("29.50", 2);
  }

  /** "", "." and "abc" are not numbers. */
  lemma NonNumericExamples()
    ensures !IsDecimal("") && !IsDecimal(".") && !IsDecimal("abc")
  {
    assert IntDigits(".") == "" && FracDigits(".") == "";
    assert IntDigits("abc") == "abc";
    assert !IsDigit('a');
  }

  lemma DateExamples()
    ensures IsDate("2024-01-15") && IsDate("01/15/2024")
    ensures !IsDate("2024-1-15") && !IsDate("2024/01/15")
  {
  }
}
