/** The four headline cards: total overdue, total upcoming, available credit and delinquency rate. */
module Totals {
  import opened Dataset

  datatype Headline = Headline(
    vencidoTotal: real,
    avencerTotal: real,
    disponivelTotal: real,
    totalCarteira: real,
    inadPct: real)

  function Headlines(rows: seq<Record>): (h: Headline)
    ensures h.vencidoTotal == Sum(rows, Vencido)
    ensures h.avencerTotal == Sum(rows, AVencer)
    ensures h.disponivelTotal == Sum(rows, Disponivel)
    ensures h.totalCarteira == h.vencidoTotal + h.avencerTotal
    ensures h.totalCarteira != 0.0 ==> h.inadPct * h.totalCarteira == h.vencidoTotal * 100.0
    ensures h.totalCarteira == 0.0 ==> h.inadPct == 0.0
  {
    var vencido := Sum(rows, Vencido);
    var avencer := Sum(rows, AVencer);
    var carteira := vencido + avencer;
    Headline(vencido, avencer, Sum(rows, Disponivel), carteira, Pct(vencido, carteira))
  }

  /** With no negative amounts the delinquency rate is a percentage between 0 and 100. */
  lemma InadPctBounds(rows: seq<Record>)
    requires forall i :: 0 <= i < |rows| ==> rows[i].vencido >= 0.0 && rows[i].aVencer >= 0.0
    ensures 0.0 <= Headlines(rows).inadPct <= 100.0
  {
    SumNonNegative(rows, Vencido);
    SumNonNegative(rows, AVencer);
    var h := Headlines(rows);
    PctBounds(h.vencidoTotal, h.totalCarteira);
  }

  /** The totals of a view split in two parts are the sums of the parts' totals. */
  lemma HeadlinesAppend(a: seq<Record>, b: seq<Record>)
    ensures Headlines(a + b).vencidoTotal == Headlines(a).vencidoTotal + Headlines(b).vencidoTotal
    ensures Headlines(a + b).avencerTotal == Headlines(a).avencerTotal + Headlines(b).avencerTotal
    ensures Headlines(a + b).disponivelTotal == Headlines(a).disponivelTotal + Headlines(b).disponivelTotal
  {
    SumAppend(a, b, Vencido);
    SumAppend(a, b, AVencer);
    SumAppend(a, b, Disponivel);
  }

  /** An empty view reports zero everywhere, the rate included, without dividing by zero. */
  lemma HeadlinesEmpty()
    ensures Headlines([]) == Headline(0.0, 0.0, 0.0, 0.0, 0.0)
  {
  }

  /** A portfolio of 200 overdue and 800 upcoming is 20 percent delinquent. */
  lemma InadPctExample()
    ensures Pct(200.0, 200.0 + 800.0) == 20.0
  {
  }
}
