/**
 * One row of the credit dataset after loading, the amount columns the
 * dashboard aggregates, column sums and the zero-guarded percentage.
 */
module Dataset {
  import opened Wrappers

  /**
   * A loaded row. The amounts are already coerced (an unparseable cell reads 0);
   * `cnpjCpf` and `status` are None for an empty cell.
   */
  datatype Record = Record(
    filial: string,
    cnpjCpf: Option<string>,
    status: Option<string>,
    vencido: real,
    aVencer: real,
    disponivel: real,
    vendedor: string,
    tm: string)

  /** The amount columns that are summed: Vencido, A_Vencer and Disponivel. */
  datatype Column = Vencido | AVencer | Disponivel

  function Amount(r: Record, c: Column): real {
    match c
    case Vencido => r.vencido
    case AVencer => r.aVencer
    case Disponivel => r.disponivel
  }

  /** Column sum, as `df[coluna].sum()`; 0 for no rows. */
  function Sum(rows: seq<Record>, c: Column): real {
    if |rows| == 0 then 0.0 else Amount(rows[0], c) + Sum(rows[1..], c)
  }

  lemma {:induction false} SumAppend(a: seq<Record>, b: seq<Record>, c: Column)
    ensures Sum(a + b, c) == Sum(a, c) + Sum(b, c)
  {
    if |a| == 0 {
      assert a + b == b;
    } else {
      assert (a + b)[1..] == a[1..] + b;
      SumAppend(a[1..], b, c);
    }
  }

  lemma {:induction false} SumNonNegative(rows: seq<Record>, c: Column)
    requires forall i :: 0 <= i < |rows| ==> Amount(rows[i], c) >= 0.0
    ensures Sum(rows, c) >= 0.0
  {
    if |rows| > 0 {
      SumNonNegative(rows[1..], c);
    }
  }

  /**
   * `part / whole * 100`, and 0 when `whole` is 0: the guard every ratio of the
   * dashboard applies (headline rate, status and client percentages, branch rate).
   */
  function Pct(part: real, whole: real): (p: real)
    ensures whole != 0.0 ==> p * whole == part * 100.0
    ensures whole == 0.0 ==> p == 0.0
  {
    if whole == 0.0 then 0.0 else part / whole * 100.0
  }

  /** Percentages of one base add up. */
  lemma PctAdd(a: real, b: real, whole: real)
    ensures Pct(a, whole) + Pct(b, whole) == Pct(a + b, whole)
  {
  }

  /** The two shares of a non-zero total make 100. */
  lemma PctComplement(a: real, b: real)
    requires a + b != 0.0
    ensures Pct(a, a + b) + Pct(b, a + b) == 100.0
  {
    PctAdd(a, b, a + b);
  }

  /** A non-negative part of a non-negative whole is between 0 and 100 percent of it. */
  lemma PctBounds(part: real, whole: real)
    requires 0.0 <= part <= whole
    ensures 0.0 <= Pct(part, whole) <= 100.0
  {
    if whole != 0.0 {
      assert Pct(part, whole) * whole <= 100.0 * whole;
    }
  }
}
