/**
 * The status breakdown: sums of the three amount columns and client counts per
 * status, always four rows in the order Ruim, Regular, Bom, Ótimo, absent
 * statuses zero-filled, with percentages of each column's own total.
 */
module StatusBreakdown {
  import opened Wrappers
  import opened Dataset
  import opened Grouping
  import Totals

  /** `ordem_status`. */
  const OrdemStatus: seq<string> := ["Ruim", "Regular", "Bom", "Ótimo"]

  function StatusOf(r: Record): Option<string> {
    r.status
  }

  predicate KnownStatus(r: Record) {
    r.status.Some? && r.status.value in OrdemStatus
  }

  lemma OrdemStatusDistinct()
    ensures Distinct(OrdemStatus)
  {
  }

  /** A row of `df_grafico`: the three column sums of one status. */
  datatype ChartRow = ChartRow(status: string, vencido: real, aVencer: real, disponivel: real)

  /** A row of `gerar_tabela_formatada`: one column's sum for a status and its share. */
  datatype StatusLine = StatusLine(status: string, valor: real, percentual: real)

  /** A row of the client distribution table. */
  datatype CountLine = CountLine(status: string, quantidade: nat, percentual: real)

  /** `df_grafico`: per status, in fixed order, the sums of Vencido, A_Vencer and Disponivel. */
  function Chart(rows: seq<Record>): (r: seq<ChartRow>)
    ensures |r| == 4
    ensures forall i :: 0 <= i < 4 ==> r[i].status == OrdemStatus[i]
    ensures forall i :: 0 <= i < 4 ==>
      r[i].vencido == SumWhere(rows, StatusOf, OrdemStatus[i], Vencido) &&
      r[i].aVencer == SumWhere(rows, StatusOf, OrdemStatus[i], AVencer) &&
      r[i].disponivel == SumWhere(rows, StatusOf, OrdemStatus[i], Disponivel)
  {
    var v := Series(rows, StatusOf, OrdemStatus, Vencido);
    var a := Series(rows, StatusOf, OrdemStatus, AVencer);
    var d := Series(rows, StatusOf, OrdemStatus, Disponivel);
    seq(4, i requires 0 <= i < 4 => ChartRow(OrdemStatus[i], v[i], a[i], d[i]))
  }

  /** `gerar_tabela_formatada(coluna)`: the zero-filled series and its percentage column. */
  function Table(rows: seq<Record>, c: Column): (r: seq<StatusLine>)
    ensures |r| == 4
    ensures forall i :: 0 <= i < 4 ==>
      r[i].status == OrdemStatus[i] && r[i].valor == SumWhere(rows, StatusOf, OrdemStatus[i], c)
  {
    var serie := Series(rows, StatusOf, OrdemStatus, c);
    var percentual := Percentages(serie);
    seq(4, i requires 0 <= i < 4 => StatusLine(OrdemStatus[i], serie[i], percentual[i]))
  }

  /** The client distribution: `value_counts().reindex(ordem_status, fill_value=0)` and its percentages. */
  function ClientCounts(rows: seq<Record>): (r: seq<CountLine>)
    ensures |r| == 4
    ensures forall i :: 0 <= i < 4 ==>
      r[i].status == OrdemStatus[i] && r[i].quantidade == CountWhere(rows, StatusOf, OrdemStatus[i], Always)
  {
    var contagem := Counts(rows, StatusOf, OrdemStatus, Always);
    var percentual := Percentages(AsReals(contagem));
    seq(4, i requires 0 <= i < 4 => CountLine(OrdemStatus[i], contagem[i], percentual[i]))
  }

  function Valores(t: seq<StatusLine>): seq<real> {
    seq(|t|, i requires 0 <= i < |t| => t[i].valor)
  }

  function Percentuais(t: seq<StatusLine>): seq<real> {
    seq(|t|, i requires 0 <= i < |t| => t[i].percentual)
  }

  function Quantidades(t: seq<CountLine>): seq<nat> {
    seq(|t|, i requires 0 <= i < |t| => t[i].quantidade)
  }

  function CountPercentuais(t: seq<CountLine>): seq<real> {
    seq(|t|, i requires 0 <= i < |t| => t[i].percentual)
  }

  /**
   * Each status row holds, in fixed order, the column sum over the rows with that
   * status, and its share of the four rows' total (0 when that total is 0).
   */
  lemma TableRows(rows: seq<Record>, c: Column)
    ensures forall i :: 0 <= i < 4 ==>
      Table(rows, c)[i].status == OrdemStatus[i] &&
      Table(rows, c)[i].valor == SumWhere(rows, StatusOf, OrdemStatus[i], c) &&
      Table(rows, c)[i].percentual == Pct(Table(rows, c)[i].valor, Total(Valores(Table(rows, c))))
  {
    assert Valores(Table(rows, c)) == Series(rows, StatusOf, OrdemStatus, c);
  }

  /**
   * The four sums add up to the column total over the rows whose status is one of
   * the four, and to the whole column total when every row has one of them.
   */
  lemma TableTotal(rows: seq<Record>, c: Column)
    ensures Total(Valores(Table(rows, c))) == SumIn(rows, StatusOf, OrdemStatus, c)
    ensures (forall i :: 0 <= i < |rows| ==> KnownStatus(rows[i])) ==>
      Total(Valores(Table(rows, c))) == Sum(rows, c)
  {
    assert Valores(Table(rows, c)) == Series(rows, StatusOf, OrdemStatus, c);
    OrdemStatusDistinct();
    SeriesTotal(rows, StatusOf, OrdemStatus, c);
    if forall i :: 0 <= i < |rows| ==> KnownStatus(rows[i]) {
      SumInAll(rows, StatusOf, OrdemStatus, c);
    }
  }

  /** The percentage column sums to 100 when the column total is not 0, and is all 0 otherwise. */
  lemma TablePercentages(rows: seq<Record>, c: Column)
    ensures Total(Valores(Table(rows, c))) != 0.0 ==> Total(Percentuais(Table(rows, c))) == 100.0
    ensures Total(Valores(Table(rows, c))) == 0.0 ==>
      forall i :: 0 <= i < 4 ==> Table(rows, c)[i].percentual == 0.0
  {
    var serie := Series(rows, StatusOf, OrdemStatus, c);
    assert Valores(Table(rows, c)) == serie;
    assert Percentuais(Table(rows, c)) == Percentages(serie);
    PercentagesTotal(serie);
  }

  /** A status no row carries still has its row, with 0 in every column. */
  lemma AbsentStatusZero(rows: seq<Record>, i: nat)
    requires i < 4
    requires forall j :: 0 <= j < |rows| ==> rows[j].status != Some(OrdemStatus[i])
    ensures Chart(rows)[i] == ChartRow(OrdemStatus[i], 0.0, 0.0, 0.0)
    ensures Table(rows, Vencido)[i].valor == 0.0
    ensures ClientCounts(rows)[i].quantidade == 0
  {
    SumWhereAbsent(rows, StatusOf, OrdemStatus[i], Vencido);
    SumWhereAbsent(rows, StatusOf, OrdemStatus[i], AVencer);
    SumWhereAbsent(rows, StatusOf, OrdemStatus[i], Disponivel);
    CountWhereAbsent(rows, StatusOf, OrdemStatus[i], Always);
  }

  /** When every row has one of the four statuses, the chart's Vencido column adds up to the headline total. */
  lemma ChartMatchesHeadline(rows: seq<Record>)
    requires forall i :: 0 <= i < |rows| ==> KnownStatus(rows[i])
    ensures Chart(rows)[0].vencido + Chart(rows)[1].vencido + Chart(rows)[2].vencido + Chart(rows)[3].vencido
            == Totals.Headlines(rows).vencidoTotal
  {
    TableTotal(rows, Vencido);
    TableRows(rows, Vencido);
    Total4(Valores(Table(rows, Vencido)));
  }

  /**
   * Each status holds its count of rows, in fixed order; the counts add up to the
   * number of rows whose status is one of the four.
   */
  lemma ClientCountsRows(rows: seq<Record>)
    ensures forall i :: 0 <= i < 4 ==>
      ClientCounts(rows)[i].status == OrdemStatus[i] &&
      ClientCounts(rows)[i].quantidade == CountWhere(rows, StatusOf, OrdemStatus[i], Always)
    ensures TotalN(Quantidades(ClientCounts(rows))) == CountIn(rows, StatusOf, OrdemStatus, Always)
  {
    var contagem := Counts(rows, StatusOf, OrdemStatus, Always);
    assert Quantidades(ClientCounts(rows)) == contagem;
    OrdemStatusDistinct();
    CountsTotal(rows, StatusOf, OrdemStatus, Always);
  }

  /** When every row has one of the four statuses, the counts add up to the number of rows. */
  lemma ClientCountsCoverAll(rows: seq<Record>)
    requires forall i :: 0 <= i < |rows| ==> KnownStatus(rows[i])
    ensures TotalN(Quantidades(ClientCounts(rows))) == |rows|
  {
    ClientCountsRows(rows);
    CountInAll(rows, StatusOf, OrdemStatus, Always);
  }

  /** Client percentages are count * 100 / total; they sum to 100, or are all 0 when no row has a known status. */
  lemma ClientCountsPercentages(rows: seq<Record>)
    ensures forall i :: 0 <= i < 4 ==>
      ClientCounts(rows)[i].percentual ==
        Pct(ClientCounts(rows)[i].quantidade as real, TotalN(Quantidades(ClientCounts(rows))) as real)
    ensures TotalN(Quantidades(ClientCounts(rows))) != 0 ==> Total(CountPercentuais(ClientCounts(rows))) == 100.0
    ensures TotalN(Quantidades(ClientCounts(rows))) == 0 ==>
      forall i :: 0 <= i < 4 ==> ClientCounts(rows)[i].percentual == 0.0
  {
    var contagem := Counts(rows, StatusOf, OrdemStatus, Always);
    var rs := AsReals(contagem);
    assert Quantidades(ClientCounts(rows)) == contagem;
    assert CountPercentuais(ClientCounts(rows)) == Percentages(rs);
    PercentagesTotal(rs);
  }
}
