/**
 * Market tenure: the number read from the free-text `TM` cell, its six-way
 * classification, and the per-bucket summary with within-bucket percentages.
 */
module Tenure {
  import opened Wrappers
  import opened Digits
  import opened Dataset
  import opened Grouping

  /**
   * The first `\d+(,\d+)?` match of the text, the comma read as a decimal point;
   * None when the text holds no digit (the NaN of the failed extraction).
   */
  function ParseTenure(s: string): (r: Option<real>)
    ensures r.None? <==> NoDigits(s)
    ensures r.Some? ==> r.value >= 0.0
  {
    var i := FirstDigit(s, 0);
    if i == |s| then None else Some(NumberAt(s, i))
  }

  /**
   * The number whose digits start at s[i]: its digit run, then a "," and digits
   * when present. Its whole part is the value of the digit run.
   */
  function NumberAt(s: string, i: nat): (v: real)
    requires i < |s|
    ensures v >= 0.0
    ensures Value(s[i..DigitRun(s, i)]) as real <= v < Value(s[i..DigitRun(s, i)]) as real + 1.0
  {
    NumberFrom(s, i, DigitRun(s, i))
  }

  /** The number with whole part s[i..j], followed by a decimal part when s[j] is a "," before a digit. */
  function NumberFrom(s: string, i: nat, j: nat): (v: real)
    requires i <= j <= |s| && AllDigits(s[i..j])
    ensures v >= 0.0
    ensures Value(s[i..j]) as real <= v < Value(s[i..j]) as real + 1.0
  {
    var whole := Value(s[i..j]) as real;
    if j + 1 < |s| && s[j] == ',' && IsDigit(s[j + 1]) then whole + Fraction(s[j + 1..DigitRun(s, j + 1)])
    else whole
  }

  /** Text after a number that neither continues its digits nor starts a decimal part. */
  predicate EndsWhole(rest: string) {
    |rest| == 0 || (!IsDigit(rest[0]) && !(rest[0] == ',' && |rest| > 1 && IsDigit(rest[1])))
  }

  /** A whole number s[i..j] after a digit-free prefix, not followed by a decimal part, reads as that number. */
  lemma ParseWholeAt(s: string, i: nat, j: nat)
    requires i < j <= |s|
    requires NoDigits(s[..i]) && AllDigits(s[i..j]) && EndsWhole(s[j..])
    ensures ParseTenure(s) == Some(Value(s[i..j]) as real)
  {
    assert IsDigit(s[i..j][0]);
    FirstDigitAfter(s, i);
    if j < |s| {
      assert s[j] == s[j..][0];
      assert j + 1 < |s| ==> s[j + 1] == s[j..][1];
    }
    DigitRunOf(s, i, j - i);
  }

  /** A number s[i..j] "," s[j+1..k] after a digit-free prefix reads as whole part plus fraction. */
  lemma ParseFractionAt(s: string, i: nat, j: nat, k: nat)
    requires i < j && j + 1 < k <= |s|
    requires NoDigits(s[..i]) && AllDigits(s[i..j]) && s[j] == ',' && AllDigits(s[j + 1..k])
    requires k == |s| || !IsDigit(s[k])
    ensures ParseTenure(s) == Some(Value(s[i..j]) as real + Fraction(s[j + 1..k]))
  {
    assert IsDigit(s[i..j][0]);
    FirstDigitAfter(s, i);
    FractionAt(s, i, j, k);
  }

  lemma FractionAt(s: string, i: nat, j: nat, k: nat)
    requires i < j && j + 1 < k <= |s|
    requires AllDigits(s[i..j]) && s[j] == ',' && AllDigits(s[j + 1..k])
    requires k == |s| || !IsDigit(s[k])
    ensures NumberAt(s, i) == Value(s[i..j]) as real + Fraction(s[j + 1..k])
  {
    assert s[i..i + (j - i)] == s[i..j];
    DigitRunOf(s, i, j - i);
    assert NumberAt(s, i) == NumberFrom(s, i, j);
    assert IsDigit(s[j + 1..k][0]);
    assert s[j + 1..(j + 1) + (k - j - 1)] == s[j + 1..k];
    DigitRunOf(s, j + 1, k - j - 1);
  }

  /** The six tenure buckets, in display order. */
  datatype Faixa = Ate2 | De3a5 | De6a10 | De11a20 | Acima20 | NaoInformado

  /** The label `classificar_tempo_mercado` gives each bucket. */
  function Label(f: Faixa): string {
    match f
    case Ate2 => "0–2 anos"
    case De3a5 => "3–5 anos"
    case De6a10 => "6–10 anos"
    case De11a20 => "11–20 anos"
    case Acima20 => "Acima de 20 anos"
    case NaoInformado => "Não informado"
  }

  /** Distinct buckets have distinct labels, so grouping by bucket is grouping by label. */
  lemma LabelInjective(f: Faixa, g: Faixa)
    ensures Label(f) == Label(g) ==> f == g
  {
  }

  /** The `reindex` order of the summary. */
  const OrdemFaixas: seq<Faixa> := [Ate2, De3a5, De6a10, De11a20, Acima20, NaoInformado]

  /** `classificar_tempo_mercado`. */
  function Classify(v: Option<real>): (f: Faixa)
    ensures f == NaoInformado <==> v.None?
  {
    if v.None? then NaoInformado
    else if v.value <= 2.0 then Ate2
    else if v.value <= 5.0 then De3a5
    else if v.value <= 10.0 then De6a10
    else if v.value <= 20.0 then De11a20
    else Acima20
  }

  /** The interval of tenure values each numeric bucket covers. */
  predicate InRange(x: real, f: Faixa) {
    match f
    case Ate2 => x <= 2.0
    case De3a5 => 2.0 < x <= 5.0
    case De6a10 => 5.0 < x <= 10.0
    case De11a20 => 10.0 < x <= 20.0
    case Acima20 => 20.0 < x
    case NaoInformado => false
  }

  /** A parsed value lands in a bucket exactly when it lies in that bucket's interval. */
  lemma ClassifyInRange(x: real, f: Faixa)
    ensures Classify(Some(x)) == f <==> InRange(x, f)
  {
  }

  /** Position of a bucket in the display order. */
  function Rank(f: Faixa): (n: nat)
    ensures n < 6 && OrdemFaixas[n] == f
  {
    match f
    case Ate2 => 0
    case De3a5 => 1
    case De6a10 => 2
    case De11a20 => 3
    case Acima20 => 4
    case NaoInformado => 5
  }

  /** A longer tenure never lands in an earlier bucket. */
  lemma ClassifyMonotone(x: real, y: real)
    requires x <= y
    ensures Rank(Classify(Some(x))) <= Rank(Classify(Some(y)))
  {
  }

  lemma OrdemFaixasDistinct()
    ensures Distinct(OrdemFaixas)
  {
  }

  /** "5,5 anos" reads as 5.5, above 5, so it is classified 6–10 anos. */
  lemma ExampleFiveAndAHalf()
    ensures ParseTenure("5,5 anos") == Some(5.5)
    ensures Classify(ParseTenure("5,5 anos")) == De6a10
  {
    var s := "5,5 anos";
    assert s[..0] == "" && s[0..1] == "5" && s[2..3] == "5";
    ParseFractionAt(s, 0, 1, 3);
    assert Value("5") == 5;
    assert Fraction("5") == 0.5;
  }

  /** An empty cell, which `astype(str)` turns into "nan", is not informed. */
  lemma ExampleNotInformed()
    ensures Classify(ParseTenure("nan")) == NaoInformado
  {
  }

  /** The bucket of a row; every row has one, so none is dropped by the grouping. */
  function FaixaOf(r: Record): Option<Faixa> {
    Some(Classify(ParseTenure(r.tm)))
  }

  /** `'CNPJ_CPF': 'count'` counts the rows whose tax id is present. */
  predicate HasId(r: Record) {
    r.cnpjCpf.Some?
  }

  /** `Cliente_Vencido`. */
  predicate HasOverdue(r: Record) {
    r.vencido > 0.0
  }

  /** `Cliente_Avencer`. */
  predicate HasUpcoming(r: Record) {
    r.aVencer > 0.0
  }

  /** A row of `resumo_tm`. */
  datatype TenureLine = TenureLine(
    faixa: Faixa,
    vencido: real,
    aVencer: real,
    clientesTotais: nat,
    clientesVencido: nat,
    clientesAvencer: nat,
    totalFaixa: real,
    pctVencido: real,
    pctAvencer: real)

  /** One bucket's line with its local percentages, based on the bucket's own total. */
  function Line(f: Faixa, vencido: real, aVencer: real, totais: nat, comVencido: nat, comAvencer: nat): TenureLine {
    var total := vencido + aVencer;
    TenureLine(f, vencido, aVencer, totais, comVencido, comAvencer, total, Pct(vencido, total), Pct(aVencer, total))
  }

  /** `resumo_tm`: six lines in display order, each bucket zero-filled. */
  function Summary(rows: seq<Record>): (r: seq<TenureLine>)
    ensures |r| == 6
    ensures forall i :: 0 <= i < 6 ==> r[i].faixa == OrdemFaixas[i]
  {
    var v := Series(rows, FaixaOf, OrdemFaixas, Vencido);
    var a := Series(rows, FaixaOf, OrdemFaixas, AVencer);
    var totais := Counts(rows, FaixaOf, OrdemFaixas, HasId);
    var comVencido := Counts(rows, FaixaOf, OrdemFaixas, HasOverdue);
    var comAvencer := Counts(rows, FaixaOf, OrdemFaixas, HasUpcoming);
    seq(6, i requires 0 <= i < 6 => Line(OrdemFaixas[i], v[i], a[i], totais[i], comVencido[i], comAvencer[i]))
  }

  function VencidoColumn(t: seq<TenureLine>): seq<real> {
    seq(|t|, i requires 0 <= i < |t| => t[i].vencido)
  }

  function AVencerColumn(t: seq<TenureLine>): seq<real> {
    seq(|t|, i requires 0 <= i < |t| => t[i].aVencer)
  }

  function TotaisColumn(t: seq<TenureLine>): seq<nat> {
    seq(|t|, i requires 0 <= i < |t| => t[i].clientesTotais)
  }

  /** Each line aggregates exactly the rows of its bucket. */
  lemma SummaryLines(rows: seq<Record>)
    ensures forall i :: 0 <= i < 6 ==>
      var l := Summary(rows)[i];
      var f := OrdemFaixas[i];
      l.vencido == SumWhere(rows, FaixaOf, f, Vencido) &&
      l.aVencer == SumWhere(rows, FaixaOf, f, AVencer) &&
      l.clientesTotais == CountWhere(rows, FaixaOf, f, HasId) &&
      l.clientesVencido == CountWhere(rows, FaixaOf, f, HasOverdue) &&
      l.clientesAvencer == CountWhere(rows, FaixaOf, f, HasUpcoming) &&
      l.totalFaixa == l.vencido + l.aVencer
  {
  }

  lemma FaixaOfInOrder(rows: seq<Record>)
    ensures forall i :: 0 <= i < |rows| ==> FaixaOf(rows[i]).Some? && FaixaOf(rows[i]).value in OrdemFaixas
  {
    forall i | 0 <= i < |rows|
      ensures FaixaOf(rows[i]).value in OrdemFaixas
    {
      var f := FaixaOf(rows[i]).value;
      assert OrdemFaixas[Rank(f)] == f;
    }
  }

  /**
   * Every row falls in exactly one bucket, so the buckets' Vencido and A_Vencer
   * add up to the view's totals.
   */
  lemma SummaryCoversAll(rows: seq<Record>)
    ensures Total(VencidoColumn(Summary(rows))) == Sum(rows, Vencido)
    ensures Total(AVencerColumn(Summary(rows))) == Sum(rows, AVencer)
  {
    assert VencidoColumn(Summary(rows)) == Series(rows, FaixaOf, OrdemFaixas, Vencido);
    assert AVencerColumn(Summary(rows)) == Series(rows, FaixaOf, OrdemFaixas, AVencer);
    OrdemFaixasDistinct();
    FaixaOfInOrder(rows);
    SeriesTotal(rows, FaixaOf, OrdemFaixas, Vencido);
    SeriesTotal(rows, FaixaOf, OrdemFaixas, AVencer);
    SumInAll(rows, FaixaOf, OrdemFaixas, Vencido);
    SumInAll(rows, FaixaOf, OrdemFaixas, AVencer);
  }

  /** A bucket's client counts, as counts over the bucket's rows. */
  lemma BucketCounts(rows: seq<Record>, i: nat)
    requires i < 6
    ensures Summary(rows)[i].clientesTotais == CountWhere(rows, FaixaOf, OrdemFaixas[i], HasId)
    ensures Summary(rows)[i].clientesVencido == CountWhere(rows, FaixaOf, OrdemFaixas[i], HasOverdue)
    ensures Summary(rows)[i].clientesAvencer == CountWhere(rows, FaixaOf, OrdemFaixas[i], HasUpcoming)
  {
    SummaryLines(rows);
  }

  /**
   * A bucket's clients with overdue or with upcoming amounts are among its
   * clients with a tax id; when every row has one, that is every row of the bucket.
   */
  lemma BucketClientBounds(rows: seq<Record>, i: nat)
    requires i < 6
    requires forall j :: 0 <= j < |rows| ==> HasId(rows[j])
    ensures Summary(rows)[i].clientesTotais == CountWhere(rows, FaixaOf, OrdemFaixas[i], Always)
    ensures Summary(rows)[i].clientesVencido <= Summary(rows)[i].clientesTotais
    ensures Summary(rows)[i].clientesAvencer <= Summary(rows)[i].clientesTotais
  {
    var f := OrdemFaixas[i];
    BucketCounts(rows, i);
    CountWhereMono(rows, FaixaOf, f, HasId, Always);
    CountWhereMono(rows, FaixaOf, f, Always, HasId);
    CountWhereMono(rows, FaixaOf, f, HasOverdue, HasId);
    CountWhereMono(rows, FaixaOf, f, HasUpcoming, HasId);
  }

  /** When every row has a tax id, the buckets' client totals add up to the number of rows. */
  lemma SummaryClientsTotal(rows: seq<Record>)
    requires forall j :: 0 <= j < |rows| ==> HasId(rows[j])
    ensures TotalN(TotaisColumn(Summary(rows))) == |rows|
  {
    assert TotaisColumn(Summary(rows)) == Counts(rows, FaixaOf, OrdemFaixas, HasId);
    OrdemFaixasDistinct();
    CountsTotal(rows, FaixaOf, OrdemFaixas, HasId);
    FaixaOfInOrder(rows);
    CountInAll(rows, FaixaOf, OrdemFaixas, HasId);
  }

  /** A bucket no row falls in still has its line, with 0 in every column. */
  lemma AbsentBucketZero(rows: seq<Record>, i: nat)
    requires i < 6
    requires forall j :: 0 <= j < |rows| ==> FaixaOf(rows[j]) != Some(OrdemFaixas[i])
    ensures Summary(rows)[i] == TenureLine(OrdemFaixas[i], 0.0, 0.0, 0, 0, 0, 0.0, 0.0, 0.0)
  {
    var f := OrdemFaixas[i];
    SumWhereAbsent(rows, FaixaOf, f, Vencido);
    SumWhereAbsent(rows, FaixaOf, f, AVencer);
    CountWhereAbsent(rows, FaixaOf, f, HasId);
    CountWhereAbsent(rows, FaixaOf, f, HasOverdue);
    CountWhereAbsent(rows, FaixaOf, f, HasUpcoming);
    SummaryLines(rows);
  }

  /**
   * The percentages are local to each bucket: shares of the bucket's own
   * Vencido + A_Vencer, adding up to 100, and both 0 for a bucket whose total is 0.
   */
  lemma SummaryLocalPercentages(rows: seq<Record>)
    ensures forall i :: 0 <= i < 6 ==>
      var l := Summary(rows)[i];
      l.pctVencido == Pct(l.vencido, l.vencido + l.aVencer) &&
      l.pctAvencer == Pct(l.aVencer, l.vencido + l.aVencer) &&
      (l.totalFaixa != 0.0 ==> l.pctVencido + l.pctAvencer == 100.0) &&
      (l.totalFaixa == 0.0 ==> l.pctVencido == 0.0 && l.pctAvencer == 0.0)
  {
    forall i | 0 <= i < 6
      ensures var l := Summary(rows)[i];
        l.totalFaixa != 0.0 ==> l.pctVencido + l.pctAvencer == 100.0
    {
      var l := Summary(rows)[i];
      if l.totalFaixa != 0.0 {
        PctComplement(l.vencido, l.aVencer);
      }
    }
  }

  /** A quotient as pandas computes it: finite, or an infinity of either sign. */
  datatype Quotient = Finite(value: real) | Infinite(positive: bool)

  /**
   * The within-bucket percentage as written: `part / total * 100` with only the
   * NaN of 0/0 filled with 0, so a non-zero part of a zero total stays infinite.
   */
  function LocalPctAsWritten(part: real, whole: real): (q: Quotient)
    ensures whole != 0.0 ==> q == Finite(Pct(part, whole))
    ensures whole == 0.0 ==> (q.Infinite? <==> part != 0.0)
    ensures whole == 0.0 && part == 0.0 ==> q == Finite(0.0)
    ensures q.Infinite? ==> q.positive == (part > 0.0)
  {
    if whole != 0.0 then Finite(part / whole * 100.0)
    else if part == 0.0 then Finite(0.0)
    else Infinite(part > 0.0)
  }

  /**
   * A bucket whose only row has overdue and upcoming amounts that cancel (say 50
   * and -50) has total 0: as written its "% Vencido" is +infinity, where the
   * guarded share used above is 0.
   */
  lemma CancellingBucketIsInfinite(r: Record)
    requires r.vencido > 0.0 && r.aVencer == -r.vencido
    ensures var l := Summary([r])[Rank(FaixaOf(r).value)];
      l.totalFaixa == 0.0 && LocalPctAsWritten(l.vencido, l.totalFaixa) == Infinite(true) && l.pctVencido == 0.0
  {
    var f := FaixaOf(r).value;
    SummaryLines([r]);
    assert [r][1..] == [];
    assert SumWhere([r], FaixaOf, f, Vencido) == r.vencido;
    assert SumWhere([r], FaixaOf, f, AVencer) == r.aVencer;
  }
}
