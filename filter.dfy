/**
 * The dashboard's row filter: a branch multi-select (an empty selection
 * filters nothing) followed by a salesperson choice ("Todos" keeps everyone).
 */
module Filter {
  import opened Dataset

  /** The salesperson option that disables the salesperson filter. */
  const AllSellers: string := "Todos"

  /** `df[df['Filial'].isin(branches)]`. */
  function ByBranch(rows: seq<Record>, branches: set<string>): (r: seq<Record>)
    ensures multiset(r) <= multiset(rows)
    ensures forall i :: 0 <= i < |r| ==> r[i].filial in branches
    ensures forall x :: x in r <==> x in rows && x.filial in branches
  {
    if |rows| == 0 then []
    else
      assert rows == [rows[0]] + rows[1..];
      if rows[0].filial in branches then [rows[0]] + ByBranch(rows[1..], branches)
      else ByBranch(rows[1..], branches)
  }

  /** `df[df['Vendedor'] == seller]`. */
  function BySeller(rows: seq<Record>, seller: string): (r: seq<Record>)
    ensures multiset(r) <= multiset(rows)
    ensures forall i :: 0 <= i < |r| ==> r[i].vendedor == seller
    ensures forall x :: x in r <==> x in rows && x.vendedor == seller
  {
    if |rows| == 0 then []
    else
      assert rows == [rows[0]] + rows[1..];
      if rows[0].vendedor == seller then [rows[0]] + BySeller(rows[1..], seller)
      else BySeller(rows[1..], seller)
  }

  /** The filtered view `df_filtrado`: only rows that pass both filters, none more often than in the input. */
  function Apply(rows: seq<Record>, branches: set<string>, seller: string): (r: seq<Record>)
    ensures multiset(r) <= multiset(rows)
    ensures forall i :: 0 <= i < |r| ==> Keeps(r[i], branches, seller)
  {
    var byBranch := if |branches| > 0 then ByBranch(rows, branches) else rows;
    assert forall i :: 0 <= i < |byBranch| ==> |branches| == 0 || byBranch[i].filial in branches;
    if seller != AllSellers then
      var r := BySeller(byBranch, seller);
      assert forall i :: 0 <= i < |r| ==> r[i] in multiset(byBranch);
      r
    else byBranch
  }

  /** Whether a single row survives the filter. */
  predicate Keeps(r: Record, branches: set<string>, seller: string) {
    (|branches| == 0 || r.filial in branches) && (seller == AllSellers || r.vendedor == seller)
  }

  lemma {:induction false} ByBranchAppend(a: seq<Record>, b: seq<Record>, branches: set<string>)
    ensures ByBranch(a + b, branches) == ByBranch(a, branches) + ByBranch(b, branches)
  {
    if |a| == 0 {
      assert a + b == b;
    } else {
      assert (a + b)[0] == a[0] && (a + b)[1..] == a[1..] + b;
      ByBranchAppend(a[1..], b, branches);
      if a[0].filial in branches {
        assert [a[0]] + (ByBranch(a[1..], branches) + ByBranch(b, branches)) ==
          ([a[0]] + ByBranch(a[1..], branches)) + ByBranch(b, branches);
      }
    }
  }

  lemma {:induction false} BySellerAppend(a: seq<Record>, b: seq<Record>, seller: string)
    ensures BySeller(a + b, seller) == BySeller(a, seller) + BySeller(b, seller)
  {
    if |a| == 0 {
      assert a + b == b;
    } else {
      assert (a + b)[0] == a[0] && (a + b)[1..] == a[1..] + b;
      BySellerAppend(a[1..], b, seller);
      if a[0].vendedor == seller {
        assert [a[0]] + (BySeller(a[1..], seller) + BySeller(b, seller)) ==
          ([a[0]] + BySeller(a[1..], seller)) + BySeller(b, seller);
      }
    }
  }

  /** Filtering a concatenation filters each part: the view keeps the input's row order. */
  lemma ApplyAppend(a: seq<Record>, b: seq<Record>, branches: set<string>, seller: string)
    ensures Apply(a + b, branches, seller) == Apply(a, branches, seller) + Apply(b, branches, seller)
  {
    ByBranchAppend(a, b, branches);
    var a1 := if |branches| > 0 then ByBranch(a, branches) else a;
    var b1 := if |branches| > 0 then ByBranch(b, branches) else b;
    BySellerAppend(a1, b1, seller);
  }

  /** A single row is kept exactly when it satisfies Keeps. */
  lemma ApplySingleton(r: Record, branches: set<string>, seller: string)
    ensures Apply([r], branches, seller) == if Keeps(r, branches, seller) then [r] else []
  {
    assert [r][1..] == [];
    assert ByBranch([r], branches) == (if r.filial in branches then [r] else []) + ByBranch([], branches);
    var b1 := if |branches| > 0 then ByBranch([r], branches) else [r];
    assert b1 == if |branches| == 0 || r.filial in branches then [r] else [];
    if b1 == [r] {
      assert BySeller(b1, seller) == if r.vendedor == seller then [r] else [];
    }
  }

  /**
   * The view is the input with the rows that fail Keeps removed: it is spelled
   * row by row, so it holds exactly the kept rows in their original order.
   */
  lemma {:induction false} ApplyIsSelection(rows: seq<Record>, branches: set<string>, seller: string)
    ensures Apply(rows, branches, seller) == Selection(rows, branches, seller)
  {
    if |rows| == 0 {
    } else {
      assert rows == [rows[0]] + rows[1..];
      ApplyAppend([rows[0]], rows[1..], branches, seller);
      ApplySingleton(rows[0], branches, seller);
      ApplyIsSelection(rows[1..], branches, seller);
    }
  }

  /** The rows satisfying Keeps, in input order: the reference the two-stage filter is compared with. */
  function Selection(rows: seq<Record>, branches: set<string>, seller: string): seq<Record> {
    if |rows| == 0 then []
    else (if Keeps(rows[0], branches, seller) then [rows[0]] else []) + Selection(rows[1..], branches, seller)
  }

  lemma {:induction false} SelectionMembers(rows: seq<Record>, branches: set<string>, seller: string)
    ensures forall x :: x in Selection(rows, branches, seller) <==> x in rows && Keeps(x, branches, seller)
    ensures multiset(Selection(rows, branches, seller)) <= multiset(rows)
  {
    if |rows| > 0 {
      assert rows == [rows[0]] + rows[1..];
      SelectionMembers(rows[1..], branches, seller);
    }
  }

  /** A row is in the view iff it is in the input and passes both filters; no row is duplicated. */
  lemma ApplyMembers(rows: seq<Record>, branches: set<string>, seller: string)
    ensures forall x :: x in Apply(rows, branches, seller) <==> x in rows && Keeps(x, branches, seller)
    ensures multiset(Apply(rows, branches, seller)) <= multiset(rows)
  {
    ApplyIsSelection(rows, branches, seller);
    SelectionMembers(rows, branches, seller);
  }

  /** Selecting only branches that do not occur gives an empty view. */
  lemma AbsentBranchesEmpty(rows: seq<Record>, branches: set<string>, seller: string)
    requires |branches| > 0
    requires forall i :: 0 <= i < |rows| ==> rows[i].filial !in branches
    ensures Apply(rows, branches, seller) == []
  {
    ApplyIsSelection(rows, branches, seller);
    NothingKept(rows, branches, seller);
  }

  lemma {:induction false} NothingKept(rows: seq<Record>, branches: set<string>, seller: string)
    requires forall i :: 0 <= i < |rows| ==> !Keeps(rows[i], branches, seller)
    ensures Selection(rows, branches, seller) == []
  {
    if |rows| > 0 {
      NothingKept(rows[1..], branches, seller);
    }
  }

  /** With no branch selected (so no branch filter) and "Todos", the view is the whole dataset. */
  lemma {:induction false} NoFilterKeepsAll(rows: seq<Record>)
    ensures Apply(rows, {}, AllSellers) == rows
  {
  }
}
