/**
 * The two rankings: the ten clients with the largest overdue amount, and the
 * branches ordered by delinquency rate, both numbered 1..n.
 */
module Rankings {
  import opened Wrappers
  import opened Dataset
  import opened Grouping
  import opened Sorting

  function CnpjOf(r: Record): Option<string> {
    r.cnpjCpf
  }

  function FilialOf(r: Record): Option<string> {
    Some(r.filial)
  }

  /** `'Status': 'first'`: the first present status among the rows of this tax id. */
  function FirstStatus(rows: seq<Record>, id: string): (r: Option<string>)
    ensures (forall i :: 0 <= i < |rows| && rows[i].cnpjCpf == Some(id) ==> rows[i].status.None?) ==> r.None?
  {
    if |rows| == 0 then None
    else if rows[0].cnpjCpf == Some(id) && rows[0].status.Some? then rows[0].status
    else FirstStatus(rows[1..], id)
  }

  /**
   * FirstStatus is missing only when every row of the id lacks a status, and
   * otherwise is the status of a row of the id before which no row of the id has one.
   */
  lemma {:induction false} FirstStatusSpec(rows: seq<Record>, id: string)
    ensures FirstStatus(rows, id).None? <==>
      forall i :: 0 <= i < |rows| && rows[i].cnpjCpf == Some(id) ==> rows[i].status.None?
    ensures FirstStatus(rows, id).Some? ==>
      exists i :: 0 <= i < |rows| && rows[i].cnpjCpf == Some(id) && rows[i].status == FirstStatus(rows, id) &&
        forall j :: 0 <= j < i && rows[j].cnpjCpf == Some(id) ==> rows[j].status.None?
  {
    if |rows| > 0 {
      if !(rows[0].cnpjCpf == Some(id) && rows[0].status.Some?) {
        var rest := rows[1..];
        FirstStatusSpec(rest, id);
        assert forall i :: 0 < i < |rows| ==> rows[i] == rest[i - 1];
        if FirstStatus(rest, id).Some? {
          var i :| 0 <= i < |rest| && rest[i].cnpjCpf == Some(id) && rest[i].status == FirstStatus(rest, id) &&
            forall j :: 0 <= j < i && rest[j].cnpjCpf == Some(id) ==> rest[j].status.None?;
          assert rows[i + 1] == rest[i];
        }
      }
    }
  }

  /** A row of the client ranking. */
  datatype Debtor = Debtor(posicao: nat, cnpjCpf: string, status: Option<string>, vencido: real)

  function VencidoOf(d: Debtor): real {
    d.vencido
  }

  /** The group of one tax id: its summed Vencido and first status (not yet numbered). */
  function DebtorOf(rows: seq<Record>, id: string): Debtor {
    Debtor(0, id, FirstStatus(rows, id), SumWhere(rows, CnpjOf, id, Vencido))
  }

  /** `groupby('CNPJ_CPF').agg(...)`: one group per present tax id. */
  function Debtors(rows: seq<Record>): (g: seq<Debtor>)
    ensures |g| == |DistinctKeys(rows, CnpjOf)|
    ensures forall i :: 0 <= i < |g| ==>
      g[i].cnpjCpf == DistinctKeys(rows, CnpjOf)[i] &&
      g[i].vencido == SumWhere(rows, CnpjOf, g[i].cnpjCpf, Vencido) &&
      g[i].status == FirstStatus(rows, g[i].cnpjCpf)
  {
    var ids := DistinctKeys(rows, CnpjOf);
    seq(|ids|, i requires 0 <= i < |ids| => DebtorOf(rows, ids[i]))
  }

  /** The `Posição` column `range(1, n + 1)`: the element at place i gets position i + 1. */
  function Numbered<T>(s: seq<T>, at: (T, nat) -> T): (r: seq<T>)
    ensures |r| == |s|
    ensures forall i :: 0 <= i < |s| ==> r[i] == at(s[i], i + 1)
  {
    seq(|s|, i requires 0 <= i < |s| => at(s[i], i + 1))
  }

  function DebtorAt(d: Debtor, n: nat): Debtor {
    d.(posicao := n)
  }

  /** `ranking_clientes`: sorted by Vencido descending, the first ten, numbered from 1. */
  function TopDebtors(rows: seq<Record>): (r: seq<Debtor>)
    ensures |r| == if |DistinctKeys(rows, CnpjOf)| < 10 then |DistinctKeys(rows, CnpjOf)| else 10
    ensures forall i :: 0 <= i < |r| ==> r[i].posicao == i + 1
  {
    Numbered(Head(SortDesc(Debtors(rows), VencidoOf), 10), DebtorAt)
  }

  /**
   * Every entry is the group of a distinct present tax id, with that id's summed
   * Vencido and first status; entries are in non-increasing Vencido order.
   */
  lemma TopDebtorsEntries(rows: seq<Record>)
    ensures forall i :: 0 <= i < |TopDebtors(rows)| ==>
      var d := TopDebtors(rows)[i];
      d.cnpjCpf in DistinctKeys(rows, CnpjOf) &&
      d.vencido == SumWhere(rows, CnpjOf, d.cnpjCpf, Vencido) &&
      d.status == FirstStatus(rows, d.cnpjCpf)
    ensures forall i, j :: 0 <= i < j < |TopDebtors(rows)| ==>
      TopDebtors(rows)[i].vencido >= TopDebtors(rows)[j].vencido &&
      TopDebtors(rows)[i].cnpjCpf != TopDebtors(rows)[j].cnpjCpf
  {
    var g := Debtors(rows);
    var t := SortDesc(g, VencidoOf);
    SortDescSorted(g, VencidoOf);
    DebtorsUnique(rows);
    PermutationUnique(g, t);
    forall i | 0 <= i < |t|
      ensures t[i].cnpjCpf in DistinctKeys(rows, CnpjOf) && t[i] == DebtorOf(rows, t[i].cnpjCpf)
    {
      assert t[i] in multiset(g);
      DebtorGroup(rows, t[i]);
    }
    NumberedDebtors(rows, t, TopDebtors(rows));
  }

  lemma DebtorGroup(rows: seq<Record>, d: Debtor)
    requires d in Debtors(rows)
    ensures d.cnpjCpf in DistinctKeys(rows, CnpjOf) && d == DebtorOf(rows, d.cnpjCpf)
  {
    var g := Debtors(rows);
    var n :| 0 <= n < |g| && g[n] == d;
  }

  /** No two client groups are equal: each has its own tax id. */
  lemma DebtorsUnique(rows: seq<Record>)
    ensures Unique(Debtors(rows))
  {
    var ids := DistinctKeys(rows, CnpjOf);
    var g := Debtors(rows);
    forall m, n | 0 <= m < n < |g| ensures g[m] != g[n] {
      assert g[m].cnpjCpf == ids[m] && g[n].cnpjCpf == ids[n];
    }
  }

  /** The first ten of sorted, pairwise different groups, numbered, stay sorted with no tax id twice. */
  lemma NumberedDebtors(rows: seq<Record>, t: seq<Debtor>, r: seq<Debtor>)
    requires NonIncreasing(t, VencidoOf) && Unique(t)
    requires forall i :: 0 <= i < |t| ==> t[i].cnpjCpf in DistinctKeys(rows, CnpjOf) && t[i] == DebtorOf(rows, t[i].cnpjCpf)
    requires r == Numbered(Head(t, 10), DebtorAt)
    ensures forall i :: 0 <= i < |r| ==>
      r[i].cnpjCpf in DistinctKeys(rows, CnpjOf) &&
      r[i].vencido == SumWhere(rows, CnpjOf, r[i].cnpjCpf, Vencido) &&
      r[i].status == FirstStatus(rows, r[i].cnpjCpf)
    ensures forall i, j :: 0 <= i < j < |r| ==> r[i].vencido >= r[j].vencido && r[i].cnpjCpf != r[j].cnpjCpf
  {
    var h := Head(t, 10);
    assert forall i :: 0 <= i < |h| ==> h[i] == t[i];
    forall i, j | 0 <= i < j < |r|
      ensures r[i].vencido >= r[j].vencido && r[i].cnpjCpf != r[j].cnpjCpf
    {
      assert r[i].cnpjCpf == t[i].cnpjCpf && r[j].cnpjCpf == t[j].cnpjCpf;
      assert VencidoOf(t[i]) >= VencidoOf(t[j]);
      assert t[i] != t[j];
    }
  }

  /**
   * The truncation keeps the largest: a present tax id left out of the ranking
   * owes no more than any client in it.
   */
  lemma TopDebtorsAreLargest(rows: seq<Record>, id: string)
    requires id in DistinctKeys(rows, CnpjOf)
    requires forall i :: 0 <= i < |TopDebtors(rows)| ==> TopDebtors(rows)[i].cnpjCpf != id
    ensures forall i :: 0 <= i < |TopDebtors(rows)| ==>
      SumWhere(rows, CnpjOf, id, Vencido) <= TopDebtors(rows)[i].vencido
  {
    var ids := DistinctKeys(rows, CnpjOf);
    var g := Debtors(rows);
    var t := SortDesc(g, VencidoOf);
    SortDescSorted(g, VencidoOf);
    var n :| 0 <= n < |ids| && ids[n] == id;
    assert g[n] == DebtorOf(rows, id);
    assert g[n] in multiset(t);
    LeftOutOwesLess(t, g[n], TopDebtors(rows));
  }

  /** In a sorted list of groups, one that is not among the first ten owes no more than those. */
  lemma LeftOutOwesLess(t: seq<Debtor>, d: Debtor, r: seq<Debtor>)
    requires NonIncreasing(t, VencidoOf) && d in t
    requires r == Numbered(Head(t, 10), DebtorAt)
    requires forall i :: 0 <= i < |r| ==> r[i].cnpjCpf != d.cnpjCpf
    ensures forall i :: 0 <= i < |r| ==> d.vencido <= r[i].vencido
  {
    var p :| 0 <= p < |t| && t[p] == d;
    var h := Head(t, 10);
    assert forall i :: 0 <= i < |h| ==> h[i] == t[i] && r[i].cnpjCpf == h[i].cnpjCpf;
    assert p >= |h|;
    forall i | 0 <= i < |r| ensures d.vencido <= r[i].vencido {
      assert r[i].vencido == t[i].vencido;
      assert VencidoOf(t[i]) >= VencidoOf(t[p]);
    }
  }

  /** A row of the branch ranking. */
  datatype BranchLine = BranchLine(
    posicao: nat,
    filial: string,
    inadPct: real,
    vencido: real,
    aVencer: real,
    totalCarteira: real)

  function RateOf(b: BranchLine): real {
    b.inadPct
  }

  /** One branch's sums, its portfolio and its zero-guarded delinquency rate (not yet numbered). */
  function BranchOf(rows: seq<Record>, f: string): BranchLine {
    var v := SumWhere(rows, FilialOf, f, Vencido);
    var a := SumWhere(rows, FilialOf, f, AVencer);
    BranchLine(0, f, Pct(v, v + a), v, a, v + a)
  }

  /** `groupby('Filial').agg(...)` with the two derived columns. */
  function Branches(rows: seq<Record>): (g: seq<BranchLine>)
    ensures |g| == |DistinctKeys(rows, FilialOf)|
    ensures forall i :: 0 <= i < |g| ==>
      g[i].filial == DistinctKeys(rows, FilialOf)[i] &&
      g[i].vencido == SumWhere(rows, FilialOf, g[i].filial, Vencido) &&
      g[i].aVencer == SumWhere(rows, FilialOf, g[i].filial, AVencer) &&
      g[i].totalCarteira == g[i].vencido + g[i].aVencer &&
      g[i].inadPct == Pct(g[i].vencido, g[i].totalCarteira)
  {
    var fs := DistinctKeys(rows, FilialOf);
    seq(|fs|, i requires 0 <= i < |fs| => BranchOf(rows, fs[i]))
  }

  function BranchAt(b: BranchLine, n: nat): BranchLine {
    b.(posicao := n)
  }

  /** `df_ranking_filial`: sorted by delinquency rate descending and numbered from 1. */
  function BranchRanking(rows: seq<Record>): (r: seq<BranchLine>)
    ensures |r| == |DistinctKeys(rows, FilialOf)|
    ensures forall i :: 0 <= i < |r| ==> r[i].posicao == i + 1
  {
    Numbered(SortDesc(Branches(rows), RateOf), BranchAt)
  }

  /** A reordering of the branch groups still holds, at every place, the group of a branch of the view. */
  lemma PermutedBranches(rows: seq<Record>, g: seq<BranchLine>, t: seq<BranchLine>)
    requires g == Branches(rows) && multiset(t) == multiset(g)
    ensures forall i :: 0 <= i < |t| ==> t[i].filial in DistinctKeys(rows, FilialOf) && t[i] == BranchOf(rows, t[i].filial)
  {
    forall i | 0 <= i < |t|
      ensures t[i].filial in DistinctKeys(rows, FilialOf) && t[i] == BranchOf(rows, t[i].filial)
    {
      assert t[i] in multiset(g);
      BranchGroup(rows, t[i]);
    }
  }

  lemma BranchGroup(rows: seq<Record>, b: BranchLine)
    requires b in Branches(rows)
    ensures b.filial in DistinctKeys(rows, FilialOf) && b == BranchOf(rows, b.filial)
  {
    var g := Branches(rows);
    var n :| 0 <= n < |g| && g[n] == b;
  }

  /** No two branch groups are equal: each has its own branch. */
  lemma BranchesUnique(rows: seq<Record>)
    ensures Unique(Branches(rows))
  {
    var fs := DistinctKeys(rows, FilialOf);
    var g := Branches(rows);
    forall m, n | 0 <= m < n < |g| ensures g[m] != g[n] {
      assert g[m].filial == fs[m] && g[n].filial == fs[n];
    }
  }

  /** Each line is the group of one branch of the view, numbered by its place in the sorted order. */
  lemma BranchRankingLines(rows: seq<Record>)
    ensures forall i :: 0 <= i < |BranchRanking(rows)| ==>
      BranchRanking(rows)[i].filial in DistinctKeys(rows, FilialOf) &&
      BranchRanking(rows)[i] == BranchOf(rows, BranchRanking(rows)[i].filial).(posicao := i + 1)
  {
    var g := Branches(rows);
    PermutedBranches(rows, g, SortDesc(g, RateOf));
  }

  /**
   * A line holding its branch's Vencido and A_Vencer, their sum as portfolio and
   * Vencido * 100 / portfolio as rate, 0 for an empty portfolio.
   */
  predicate RateHolds(rows: seq<Record>, b: BranchLine) {
    b.vencido == SumWhere(rows, FilialOf, b.filial, Vencido) &&
    b.aVencer == SumWhere(rows, FilialOf, b.filial, AVencer) &&
    b.totalCarteira == b.vencido + b.aVencer &&
    (b.totalCarteira != 0.0 ==> b.inadPct * b.totalCarteira == b.vencido * 100.0) &&
    (b.totalCarteira == 0.0 ==> b.inadPct == 0.0)
  }

  lemma BranchOfRate(rows: seq<Record>, f: string, n: nat)
    ensures RateHolds(rows, BranchOf(rows, f).(posicao := n))
  {
    var b := BranchOf(rows, f);
    assert b.inadPct == Pct(b.vencido, b.totalCarteira);
  }

  /** Every line's rate and portfolio are those of its branch. */
  lemma BranchRankingRates(rows: seq<Record>)
    ensures forall i :: 0 <= i < |BranchRanking(rows)| ==> RateHolds(rows, BranchRanking(rows)[i])
  {
    BranchRankingLines(rows);
    LinesRates(rows, BranchRanking(rows));
  }

  lemma LinesRates(rows: seq<Record>, r: seq<BranchLine>)
    requires forall i :: 0 <= i < |r| ==> r[i] == BranchOf(rows, r[i].filial).(posicao := i + 1)
    ensures forall i :: 0 <= i < |r| ==> RateHolds(rows, r[i])
  {
    forall i | 0 <= i < |r|
      ensures RateHolds(rows, r[i])
    {
      BranchOfRate(rows, r[i].filial, i + 1);
    }
  }

  /** Lines are in non-increasing rate order and no branch appears twice. */
  lemma BranchRankingOrdered(rows: seq<Record>)
    ensures forall i, j :: 0 <= i < j < |BranchRanking(rows)| ==>
      BranchRanking(rows)[i].inadPct >= BranchRanking(rows)[j].inadPct &&
      BranchRanking(rows)[i].filial != BranchRanking(rows)[j].filial
  {
    var g := Branches(rows);
    var t := SortDesc(g, RateOf);
    SortDescSorted(g, RateOf);
    BranchesUnique(rows);
    PermutationUnique(g, t);
    PermutedBranches(rows, g, t);
    NumberedBranchesOrdered(rows, t, BranchRanking(rows));
  }

  /** Numbering sorted, pairwise different groups keeps them sorted, with no branch twice. */
  lemma NumberedBranchesOrdered(rows: seq<Record>, t: seq<BranchLine>, r: seq<BranchLine>)
    requires NonIncreasing(t, RateOf) && Unique(t)
    requires forall i :: 0 <= i < |t| ==> t[i] == BranchOf(rows, t[i].filial)
    requires r == Numbered(t, BranchAt)
    ensures forall i, j :: 0 <= i < j < |r| ==> r[i].inadPct >= r[j].inadPct && r[i].filial != r[j].filial
  {
    forall i, j | 0 <= i < j < |r|
      ensures r[i].inadPct >= r[j].inadPct && r[i].filial != r[j].filial
    {
      assert r[i].filial == t[i].filial && r[j].filial == t[j].filial;
      assert RateOf(t[i]) >= RateOf(t[j]);
      assert t[i] != t[j];
    }
  }

  /** Every branch present in the view has a line. */
  lemma BranchRankingCovers(rows: seq<Record>, k: nat)
    requires k < |rows|
    ensures exists i :: 0 <= i < |BranchRanking(rows)| && BranchRanking(rows)[i].filial == rows[k].filial
  {
    var fs := DistinctKeys(rows, FilialOf);
    var g := Branches(rows);
    var t := SortDesc(g, RateOf);
    var r := BranchRanking(rows);
    assert FilialOf(rows[k]).Some?;
    var n :| 0 <= n < |fs| && fs[n] == rows[k].filial;
    assert g[n] in multiset(t);
    var p :| 0 <= p < |t| && t[p] == g[n];
    assert r[p].filial == rows[k].filial;
  }

  /**
   * Tied overdue sums keep their grouping order: groups a, b, c with a and b tied
   * above c are numbered 1, 2, 3 in that order.
   */
  lemma TopDebtorsTieExample(a: Debtor, b: Debtor, c: Debtor)
    requires a.vencido == b.vencido && b.vencido > c.vencido
    ensures var r := Numbered(Head(SortDesc([a, b, c], VencidoOf), 10), DebtorAt);
      |r| == 3 && r[0] == a.(posicao := 1) && r[1] == b.(posicao := 2) && r[2] == c.(posicao := 3)
  {
    SortTied(a, b, c);
    assert Head([a, b, c], 10) == [a, b, c];
  }

  lemma SortTied(a: Debtor, b: Debtor, c: Debtor)
    requires a.vencido == b.vencido && b.vencido > c.vencido
    ensures SortDesc([a, b, c], VencidoOf) == [a, b, c]
  {
    var ds := [a, b, c];
    assert ds[1..] == [b, c] && ds[1..][1..] == [c] && [c][1..] == [];
    assert SortDesc([c], VencidoOf) == [c];
    assert Insert(b, [c], VencidoOf) == [b, c];
    assert SortDesc([b, c], VencidoOf) == [b, c];
    assert Insert(a, [b, c], VencidoOf) == [a, b, c];
  }
}
