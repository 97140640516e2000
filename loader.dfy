/**
 * The numeric clean-up of the loader: every designated numeric column that the
 * sheet has is overwritten in place by its parse-or-zero coercion.
 */
module Loader {
  import opened Wrappers
  import opened Digits

  /** A spreadsheet cell as read: a number, a text, or empty (NaN). */
  datatype Cell = Number(x: real) | Text(s: string) | Empty

  /** `colunas_numericas`. */
  const NumericColumns: seq<string> := ["Vencido", "A_Vencer", "Disponivel", "Limite", "Risk_Score"]

  /** The value of a decimal literal `[+-]digits[.digits]`; None for any other text (see ParseNumberIffLiteral). */
  function ParseNumber(s: string): (r: Option<real>)
    ensures NoDigits(s) ==> r.None?
  {
    var start := if |s| > 0 && (s[0] == '-' || s[0] == '+') then 1 else 0;
    var negative := start == 1 && s[0] == '-';
    assert NoDigits(s) && start < |s| ==> !IsDigit(s[start]);
    match UnsignedAt(s, start)
    case None => None
    case Some(x) => Some(if negative then -x else x)
  }

  /** The unsigned literal `digits[.digits]` that makes up all of s from start on. */
  function UnsignedAt(s: string, start: nat): (r: Option<real>)
    requires start <= |s|
    ensures start == |s| || !IsDigit(s[start]) ==> r.None?
  {
    var j := DigitRun(s, start);
    if j == start then None else DecimalFrom(s, start, j)
  }

  /** The literal with digits s[start..j], then nothing or "." and digits up to the end. */
  function DecimalFrom(s: string, start: nat, j: nat): Option<real>
    requires start < j <= |s| && AllDigits(s[start..j])
  {
    var whole := Value(s[start..j]) as real;
    if j == |s| then Some(whole)
    else if s[j] == '.' && j + 1 < |s| && DigitRun(s, j + 1) == |s| then Some(whole + Fraction(s[j + 1..]))
    else None
  }

  /**
   * s splits as an optional sign s[..p], digits s[p..j], and then either nothing
   * or "." followed by one or more digits up to the end.
   */
  predicate LiteralAt(s: string, p: nat, j: nat) {
    p <= 1 && p < j <= |s| && (p == 1 ==> s[0] == '+' || s[0] == '-') &&
    AllDigits(s[p..j]) &&
    (j == |s| || (s[j] == '.' && j + 1 < |s| && AllDigits(s[j + 1..])))
  }

  /** s is a decimal literal `[+-]digits[.digits]`. */
  predicate IsLiteral(s: string) {
    exists p: nat, j: nat :: p <= 1 && j <= |s| && LiteralAt(s, p, j)
  }

  /** The value a literal denotes: its sign applied to the whole part plus the decimal fraction. */
  function LiteralValue(s: string, p: nat, j: nat): real
    requires LiteralAt(s, p, j)
  {
    var magnitude := Value(s[p..j]) as real + (if j == |s| then 0.0 else Fraction(s[j + 1..]));
    if p == 1 && s[0] == '-' then -magnitude else magnitude
  }

  /** Every literal parses, to the value it denotes ("007" is 7, "+5" is 5, "-0.5" is -0.5). */
  lemma ParseLiteral(s: string, p: nat, j: nat)
    requires LiteralAt(s, p, j)
    ensures ParseNumber(s) == Some(LiteralValue(s, p, j))
  {
    if p == 0 {
      assert IsDigit(s[p..j][0]);
    }
    UnsignedLiteral(s, p, j);
  }

  /** The digits of a literal, from p on, read as its magnitude. */
  lemma UnsignedLiteral(s: string, p: nat, j: nat)
    requires LiteralAt(s, p, j)
    ensures UnsignedAt(s, p) == Some(Value(s[p..j]) as real + (if j == |s| then 0.0 else Fraction(s[j + 1..])))
  {
    assert j < |s| ==> !IsDigit(s[j]);
    assert s[p..p + (j - p)] == s[p..j];
    DigitRunOf(s, p, j - p);
    assert UnsignedAt(s, p) == DecimalFrom(s, p, j);
    if j < |s| {
      assert s[j + 1..(j + 1) + (|s| - (j + 1))] == s[j + 1..];
      DigitRunOf(s, j + 1, |s| - (j + 1));
    }
  }

  /** Only literals parse. */
  lemma ParsedIsLiteral(s: string)
    ensures ParseNumber(s).Some? ==> IsLiteral(s)
  {
    if ParseNumber(s).Some? {
      var start := if |s| > 0 && (s[0] == '-' || s[0] == '+') then 1 else 0;
      var j := DigitRun(s, start);
      if j < |s| {
        assert DigitRun(s, j + 1) == |s|;
        assert s[j + 1..] == s[j + 1..|s|];
      }
      assert LiteralAt(s, start, j);
    }
  }

  /** A text parses exactly when it is a decimal literal. */
  lemma ParseNumberIffLiteral(s: string)
    ensures ParseNumber(s).Some? <==> IsLiteral(s)
  {
    ParsedIsLiteral(s);
    if IsLiteral(s) {
      var p: nat, j: nat :| LiteralAt(s, p, j);
      ParseLiteral(s, p, j);
    }
  }

  /** Leading zeros are allowed: "007" is 7. */
  lemma LeadingZerosLiteral()
    ensures ParseNumber("007") == Some(7.0)
  {
    var s := "007";
    ParseLiteral(s, 0, 3);
    assert s[0..3] == s && s[..2] == "00" && "00"[..1] == "0" && "0"[..0] == "";
  }

  /** An explicit plus sign is allowed: "+5" is 5. */
  lemma PlusSignLiteral()
    ensures ParseNumber("+5") == Some(5.0)
  {
    var s := "+5";
    ParseLiteral(s, 1, 2);
    assert s[1..2] == "5" && "5"[..0] == "";
  }

  /** A minus sign applies to the whole part and the fraction: "-0.5" is -0.5. */
  lemma NegativeFractionLiteral()
    ensures ParseNumber("-0.5") == Some(-0.5)
  {
    var s := "-0.5";
    ParseLiteral(s, 1, 2);
    assert s[1..2] == "0" && "0"[..0] == "" && s[3..] == "5" && "5"[..0] == "";
  }

  /** A Brazilian-formatted amount is no literal, so it coerces to 0, as with `errors='coerce'`. */
  lemma BrazilianAmountRejected()
    ensures ParseNumber("1.234,56").None? && ToNumeric(Text("1.234,56")) == 0.0
  {
  }

  /** Trailing text and a decimal comma are rejected too. */
  lemma NonLiteralsRejected()
    ensures ParseNumber("12abc").None? && ParseNumber("1,5").None?
  {
  }

  /** So is a second decimal point. */
  lemma TwoPointsRejected()
    ensures ParseNumber("1.2.3").None?
  {
  }

  /** The decimal spelling of an integer. */
  function ShowInt(n: int): string {
    (if n < 0 then "-" else "") + Show(if n < 0 then -n else n)
  }

  /**
   * Reading back an integer's spelling, then "." and a non-empty run of digits,
   * gives the integer moved away from zero by the digits' decimal fraction.
   */
  lemma ParseShowDecimal(w: int, ds: string)
    requires |ds| > 0 && AllDigits(ds)
    ensures ParseNumber(ShowInt(w) + "." + ds) ==
      Some(if w < 0 then w as real - Fraction(ds) else w as real + Fraction(ds))
  {
    var s := ShowInt(w) + "." + ds;
    var p := if w < 0 then 1 else 0;
    var j := p + |Show(Magnitude(w))|;
    DecimalSpelling(w, ds);
    ParseLiteral(s, p, j);
    ValueShow(Magnitude(w));
  }

  function Magnitude(n: int): nat {
    if n < 0 then -n else n
  }

  /** The spelling of an integer, ".", and digits splits as a literal around the spelled magnitude. */
  lemma DecimalSpelling(w: int, ds: string)
    requires |ds| > 0 && AllDigits(ds)
    ensures var s := ShowInt(w) + "." + ds;
      var p := if w < 0 then 1 else 0;
      var j := p + |Show(Magnitude(w))|;
      LiteralAt(s, p, j) && s[p..j] == Show(Magnitude(w)) && s[j + 1..] == ds && (p == 1 <==> s[0] == '-')
  {
    var s := ShowInt(w) + "." + ds;
    var p := if w < 0 then 1 else 0;
    var j := p + |Show(Magnitude(w))|;
    assert s[p..j] == Show(Magnitude(w));
    assert s[j] == '.' && s[j + 1..] == ds;
    assert p == 0 ==> s[0] == Show(Magnitude(w))[0];
  }

  /** Reading back the spelling of an integer gives the integer. */
  lemma ParseShowInt(n: int)
    ensures ParseNumber(ShowInt(n)) == Some(n as real)
  {
    var m: nat := if n < 0 then -n else n;
    var s := ShowInt(n);
    var start := if n < 0 then 1 else 0;
    assert s[start..] == Show(m);
    assert s[start] == Show(m)[0];
    UnsignedShow(s, start, m);
  }

  /** The spelling of a natural number, at the end of a text, reads as that number. */
  lemma UnsignedShow(s: string, start: nat, m: nat)
    requires start <= |s| && s[start..] == Show(m)
    ensures UnsignedAt(s, start) == Some(m as real)
  {
    DigitRunOf(s, start, |Show(m)|);
    assert s[start..|s|] == Show(m);
    ValueShow(m);
  }

  /** `pd.to_numeric(errors='coerce').fillna(0)` on one cell. */
  function ToNumeric(c: Cell): (x: real)
    ensures c.Number? ==> x == c.x
    ensures c.Empty? ==> x == 0.0
    ensures c.Text? && ParseNumber(c.s).Some? ==> x == ParseNumber(c.s).value
    ensures c.Text? && ParseNumber(c.s).None? ==> x == 0.0
  {
    match c
    case Number(x) => x
    case Text(s) => (match ParseNumber(s) case Some(v) => v case None => 0.0)
    case Empty => 0.0
  }

  /** The coerced column: same length, every cell replaced by the number its cell coerces to. */
  function CoerceColumn(col: seq<Cell>): (r: seq<Cell>)
    ensures |r| == |col|
    ensures forall i :: 0 <= i < |col| ==> r[i] == Number(ToNumeric(col[i]))
  {
    seq(|col|, i requires 0 <= i < |col| => Number(ToNumeric(col[i])))
  }

  /** After coercion every cell is a number, and cells that were numbers are kept. */
  lemma CoerceColumnNumeric(col: seq<Cell>)
    ensures forall i :: 0 <= i < |col| ==> CoerceColumn(col)[i].Number?
    ensures forall i :: 0 <= i < |col| && col[i].Number? ==> CoerceColumn(col)[i] == col[i]
    ensures forall i :: 0 <= i < |col| && col[i].Empty? ==> CoerceColumn(col)[i] == Number(0.0)
  {
  }

  /** Coercing a column twice is coercing it once. */
  lemma CoerceColumnIdempotent(col: seq<Cell>)
    ensures CoerceColumn(CoerceColumn(col)) == CoerceColumn(col)
  {
    var once := CoerceColumn(col);
    assert forall i :: 0 <= i < |col| ==> CoerceColumn(once)[i] == once[i];
  }

  /** The columns after coercing those named in names that the frame has. */
  function CoercedColumns(columns: map<string, seq<Cell>>, names: seq<string>): map<string, seq<Cell>> {
    map c | c in columns :: if c in names then CoerceColumn(columns[c]) else columns[c]
  }

  /** Coercing one more name: its column, when present, is coerced (again, if it was already). */
  lemma CoercedStep(columns: map<string, seq<Cell>>, names: seq<string>, c: string)
    ensures var before := CoercedColumns(columns, names);
      CoercedColumns(columns, names + [c]) ==
        if c in before then before[c := CoerceColumn(before[c])] else before
  {
    var before := CoercedColumns(columns, names);
    if c in before && c in names {
      CoerceColumnIdempotent(columns[c]);
    }
  }

  /** The sheet as a table of named columns. */
  class Frame {
    var columns: map<string, seq<Cell>>

    constructor (columns: map<string, seq<Cell>>)
      ensures this.columns == columns
    {
      this.columns := columns;
    }

    /**
     * The loop at the loader: for each name, if the frame has that column,
     * overwrite it with its coercion. Columns not named are untouched and no
     * column is added.
     */
    /** The loader's clean-up: the loop over `colunas_numericas`. */
    method CoerceNumericColumns()
      modifies this
      ensures columns == CoercedColumns(old(columns), NumericColumns)
      ensures columns.Keys == old(columns).Keys
      ensures forall c, i :: c in columns && c in NumericColumns && 0 <= i < |columns[c]| ==> columns[c][i].Number?
    {
      CoerceNumeric(NumericColumns);
    }

    method CoerceNumeric(names: seq<string>)
      modifies this
      ensures columns == CoercedColumns(old(columns), names)
      ensures columns.Keys == old(columns).Keys
      ensures forall c, i :: c in columns && c in names && 0 <= i < |columns[c]| ==> columns[c][i].Number?
    {
      ghost var original := columns;
      for k := 0 to |names|
        invariant columns == CoercedColumns(original, names[..k])
      {
        var coluna := names[k];
        CoercedStep(original, names[..k], coluna);
        assert names[..k + 1] == names[..k] + [coluna];
        if coluna in columns {
          columns := columns[coluna := CoerceColumn(columns[coluna])];
        }
      }
      assert names[..|names|] == names;
      forall c | c in columns && c in names
        ensures forall i :: 0 <= i < |columns[c]| ==> columns[c][i].Number?
      {
        CoerceColumnNumeric(original[c]);
      }
    }
  }
}
