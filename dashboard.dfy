/**
 * The dashboard's recomputation on every interaction: filter the dataset, then
 * derive every figure the page shows from the filtered view.
 */
module Dashboard {
  import opened Wrappers
  import opened Dataset
  import opened Grouping
  import Filter
  import Totals
  import StatusBreakdown
  import Tenure
  import Rankings

  datatype Figures = Figures(
    headline: Totals.Headline,
    chart: seq<StatusBreakdown.ChartRow>,
    vencidoTable: seq<StatusBreakdown.StatusLine>,
    avencerTable: seq<StatusBreakdown.StatusLine>,
    disponivelTable: seq<StatusBreakdown.StatusLine>,
    clientes: seq<StatusBreakdown.CountLine>,
    tempoMercado: seq<Tenure.TenureLine>,
    topDebtors: seq<Rankings.Debtor>,
    branchRanking: seq<Rankings.BranchLine>)

  /** Every figure the page derives from a view. */
  function FiguresOf(view: seq<Record>): (f: Figures)
    ensures |f.chart| == 4 && |f.vencidoTable| == 4 && |f.avencerTable| == 4
    ensures |f.disponivelTable| == 4 && |f.clientes| == 4 && |f.tempoMercado| == 6
    ensures |f.topDebtors| <= 10
  {
    Figures(
      Totals.Headlines(view),
      StatusBreakdown.Chart(view),
      StatusBreakdown.Table(view, Vencido),
      StatusBreakdown.Table(view, AVencer),
      StatusBreakdown.Table(view, Disponivel),
      StatusBreakdown.ClientCounts(view),
      Tenure.Summary(view),
      Rankings.TopDebtors(view),
      Rankings.BranchRanking(view))
  }

  /**
   * Every figure, computed from the view the branch and salesperson choices
   * select: the figures of exactly the rows that pass both filters, in input order.
   */
  function Compute(rows: seq<Record>, branches: set<string>, seller: string): (f: Figures)
    ensures f == FiguresOf(Filter.Selection(rows, branches, seller))
  {
    Filter.ApplyIsSelection(rows, branches, seller);
    FiguresOf(Filter.Apply(rows, branches, seller))
  }

  /** An empty view still has the four status rows, in order, all zero. */
  lemma EmptyStatusRows()
    ensures forall i :: 0 <= i < 4 ==>
      StatusBreakdown.Chart([])[i] == StatusBreakdown.ChartRow(StatusBreakdown.OrdemStatus[i], 0.0, 0.0, 0.0) &&
      (forall c: Column :: StatusBreakdown.Table([], c)[i].valor == 0.0 && StatusBreakdown.Table([], c)[i].percentual == 0.0) &&
      StatusBreakdown.ClientCounts([])[i].quantidade == 0 &&
      StatusBreakdown.ClientCounts([])[i].percentual == 0.0
  {
    forall c: Column {
      StatusBreakdown.TableRows([], c);
    }
    StatusBreakdown.ClientCountsRows([]);
    StatusBreakdown.ClientCountsPercentages([]);
  }

  /** An empty view still has the six tenure rows, in order, all zero. */
  lemma EmptyTenureRows()
    ensures forall i :: 0 <= i < 6 ==>
      Tenure.Summary([])[i] == Tenure.TenureLine(Tenure.OrdemFaixas[i], 0.0, 0.0, 0, 0, 0, 0.0, 0.0, 0.0)
  {
    forall i | 0 <= i < 6 {
      Tenure.AbsentBucketZero([], i);
    }
  }

  /** An empty view has empty rankings. */
  lemma EmptyRankings()
    ensures Rankings.TopDebtors([]) == [] && Rankings.BranchRanking([]) == []
  {
    assert |DistinctKeys([], Rankings.CnpjOf)| == 0;
    assert |DistinctKeys([], Rankings.FilialOf)| == 0;
  }

  /**
   * Selecting only branches the dataset does not have gives the figures of an
   * empty view: every total, status row and tenure row zero, both rankings empty.
   */
  lemma AbsentBranchesReportZero(rows: seq<Record>, branches: set<string>, seller: string)
    requires |branches| > 0
    requires forall i :: 0 <= i < |rows| ==> rows[i].filial !in branches
    ensures Compute(rows, branches, seller) == FiguresOf([])
    ensures Compute(rows, branches, seller).headline == Totals.Headline(0.0, 0.0, 0.0, 0.0, 0.0)
    ensures Compute(rows, branches, seller).topDebtors == [] && Compute(rows, branches, seller).branchRanking == []
  {
    Filter.AbsentBranchesEmpty(rows, branches, seller);
    assert Filter.Apply(rows, branches, seller) == [];
    Totals.HeadlinesEmpty();
    EmptyRankings();
  }
}
