/**
 * Fixed-order grouping over a key: the dashboard's
 * `groupby(key)[col].sum().reindex(order).fillna(0)` and
 * `value_counts().reindex(order, fill_value=0)` chains, with rows whose key is
 * missing (None) dropped the way pandas drops NaN group keys.
 */
module Grouping {
  import opened Wrappers
  import opened Dataset

  /** Sum of column c over the rows whose key is k (0 when none is). */
  function SumWhere<K(==)>(rows: seq<Record>, key: Record -> Option<K>, k: K, c: Column): real {
    if |rows| == 0 then 0.0
    else (if key(rows[0]) == Some(k) then Amount(rows[0], c) else 0.0) + SumWhere(rows[1..], key, k, c)
  }

  /** Number of rows whose key is k and that satisfy p. */
  function CountWhere<K(==)>(rows: seq<Record>, key: Record -> Option<K>, k: K, p: Record -> bool): nat {
    if |rows| == 0 then 0
    else (if key(rows[0]) == Some(k) && p(rows[0]) then 1 else 0) + CountWhere(rows[1..], key, k, p)
  }

  /** Sum of column c over the rows whose key is one of ks. */
  function SumIn<K(==)>(rows: seq<Record>, key: Record -> Option<K>, ks: seq<K>, c: Column): real {
    if |rows| == 0 then 0.0
    else (if key(rows[0]).Some? && key(rows[0]).value in ks then Amount(rows[0], c) else 0.0)
         + SumIn(rows[1..], key, ks, c)
  }

  /** Number of rows whose key is one of ks and that satisfy p. */
  function CountIn<K(==)>(rows: seq<Record>, key: Record -> Option<K>, ks: seq<K>, p: Record -> bool): nat {
    if |rows| == 0 then 0
    else (if key(rows[0]).Some? && key(rows[0]).value in ks && p(rows[0]) then 1 else 0)
         + CountIn(rows[1..], key, ks, p)
  }

  /** The predicate that holds of every row (plain `value_counts`). */
  predicate Always(r: Record) {
    true
  }

  predicate Distinct<K(==)>(ks: seq<K>) {
    forall i, j :: 0 <= i < j < |ks| ==> ks[i] != ks[j]
  }

  /** One zero-filled sum per key of ks, in the order of ks. */
  function Series<K(==)>(rows: seq<Record>, key: Record -> Option<K>, ks: seq<K>, c: Column): (r: seq<real>)
    ensures |r| == |ks|
    ensures forall i :: 0 <= i < |ks| ==> r[i] == SumWhere(rows, key, ks[i], c)
  {
    if |ks| == 0 then [] else [SumWhere(rows, key, ks[0], c)] + Series(rows, key, ks[1..], c)
  }

  /** One zero-filled count per key of ks, in the order of ks. */
  function Counts<K(==)>(rows: seq<Record>, key: Record -> Option<K>, ks: seq<K>, p: Record -> bool): (r: seq<nat>)
    ensures |r| == |ks|
    ensures forall i :: 0 <= i < |ks| ==> r[i] == CountWhere(rows, key, ks[i], p)
  {
    if |ks| == 0 then [] else [CountWhere(rows, key, ks[0], p)] + Counts(rows, key, ks[1..], p)
  }

  function Total(xs: seq<real>): real {
    if |xs| == 0 then 0.0 else xs[0] + Total(xs[1..])
  }

  lemma Total4(v: seq<real>)
    requires |v| == 4
    ensures Total(v) == v[0] + v[1] + v[2] + v[3]
  {
    assert Total(v[3..]) == v[3] + Total(v[4..]);
    assert Total(v[2..]) == v[2] + Total(v[2..][1..]);
    assert v[2..][1..] == v[3..];
    assert Total(v[1..]) == v[1] + Total(v[1..][1..]);
    assert v[1..][1..] == v[2..];
  }

  function TotalN(ns: seq<nat>): nat {
    if |ns| == 0 then 0 else ns[0] + TotalN(ns[1..])
  }

  function AsReals(ns: seq<nat>): (r: seq<real>)
    ensures |r| == |ns|
    ensures forall i :: 0 <= i < |ns| ==> r[i] == ns[i] as real
    ensures Total(r) == TotalN(ns) as real
  {
    if |ns| == 0 then [] else
      var r := [ns[0] as real] + AsReals(ns[1..]);
      assert r[1..] == AsReals(ns[1..]);
      r
  }

  /** Each value as a percentage of the values' total: `(serie / total * 100) if total else 0`. */
  function Percentages(xs: seq<real>): (r: seq<real>)
    ensures |r| == |xs|
    ensures forall i :: 0 <= i < |xs| ==> r[i] == Pct(xs[i], Total(xs))
  {
    PctOf(xs, Total(xs))
  }

  function PctOf(xs: seq<real>, whole: real): (r: seq<real>)
    ensures |r| == |xs|
    ensures forall i :: 0 <= i < |xs| ==> r[i] == Pct(xs[i], whole)
  {
    if |xs| == 0 then [] else [Pct(xs[0], whole)] + PctOf(xs[1..], whole)
  }

  lemma {:induction false} PctOfTotal(xs: seq<real>, whole: real)
    ensures Total(PctOf(xs, whole)) == Pct(Total(xs), whole)
  {
    if |xs| > 0 {
      var r := PctOf(xs, whole);
      assert r[1..] == PctOf(xs[1..], whole);
      PctOfTotal(xs[1..], whole);
      PctAdd(xs[0], Total(xs[1..]), whole);
    }
  }

  /** Percentages of a non-zero total add up to 100; of a zero total they are all 0. */
  lemma PercentagesTotal(xs: seq<real>)
    ensures Total(xs) != 0.0 ==> Total(Percentages(xs)) == 100.0
    ensures Total(xs) == 0.0 ==> forall i :: 0 <= i < |xs| ==> Percentages(xs)[i] == 0.0
  {
    var t := Total(xs);
    PctOfTotal(xs, t);
    assert Total(Percentages(xs)) == Pct(t, t);
    if t != 0.0 {
      assert Pct(t, t) == t / t * 100.0;
    }
  }

  /** A key that no row carries gets 0: the `fillna(0)` of an absent group. */
  lemma {:induction false} SumWhereAbsent<K>(rows: seq<Record>, key: Record -> Option<K>, k: K, c: Column)
    requires forall i :: 0 <= i < |rows| ==> key(rows[i]) != Some(k)
    ensures SumWhere(rows, key, k, c) == 0.0
  {
    if |rows| > 0 {
      SumWhereAbsent(rows[1..], key, k, c);
    }
  }

  lemma {:induction false} CountWhereAbsent<K>(rows: seq<Record>, key: Record -> Option<K>, k: K, p: Record -> bool)
    requires forall i :: 0 <= i < |rows| ==> key(rows[i]) != Some(k)
    ensures CountWhere(rows, key, k, p) == 0
  {
    if |rows| > 0 {
      CountWhereAbsent(rows[1..], key, k, p);
    }
  }

  lemma {:induction false} SumInCons<K>(rows: seq<Record>, key: Record -> Option<K>, k: K, ks: seq<K>, c: Column)
    requires k !in ks
    ensures SumIn(rows, key, [k] + ks, c) == SumWhere(rows, key, k, c) + SumIn(rows, key, ks, c)
  {
    if |rows| > 0 {
      SumInCons(rows[1..], key, k, ks, c);
    }
  }

  lemma {:induction false} CountInCons<K>(rows: seq<Record>, key: Record -> Option<K>, k: K, ks: seq<K>, p: Record -> bool)
    requires k !in ks
    ensures CountIn(rows, key, [k] + ks, p) == CountWhere(rows, key, k, p) + CountIn(rows, key, ks, p)
  {
    if |rows| > 0 {
      CountInCons(rows[1..], key, k, ks, p);
    }
  }

  lemma {:induction false} SumInEmpty<K>(rows: seq<Record>, key: Record -> Option<K>, c: Column)
    ensures SumIn(rows, key, [], c) == 0.0
  {
    if |rows| > 0 {
      SumInEmpty(rows[1..], key, c);
    }
  }

  lemma {:induction false} CountInEmpty<K>(rows: seq<Record>, key: Record -> Option<K>, p: Record -> bool)
    ensures CountIn(rows, key, [], p) == 0
  {
    if |rows| > 0 {
      CountInEmpty(rows[1..], key, p);
    }
  }

  /** The zero-filled sums over distinct keys add up to the sum over the rows with one of those keys. */
  lemma {:induction false} SeriesTotal<K>(rows: seq<Record>, key: Record -> Option<K>, ks: seq<K>, c: Column)
    requires Distinct(ks)
    ensures Total(Series(rows, key, ks, c)) == SumIn(rows, key, ks, c)
  {
    if |ks| == 0 {
      SumInEmpty(rows, key, c);
    } else {
      assert Series(rows, key, ks, c)[1..] == Series(rows, key, ks[1..], c);
      assert ks == [ks[0]] + ks[1..];
      assert ks[0] !in ks[1..] by {
        forall j | 0 <= j < |ks[1..]| ensures ks[1..][j] != ks[0] {
          assert ks[1..][j] == ks[j + 1];
        }
      }
      SeriesTotal(rows, key, ks[1..], c);
      SumInCons(rows, key, ks[0], ks[1..], c);
    }
  }

  /** The zero-filled counts over distinct keys add up to the number of rows with one of those keys. */
  lemma {:induction false} CountsTotal<K>(rows: seq<Record>, key: Record -> Option<K>, ks: seq<K>, p: Record -> bool)
    requires Distinct(ks)
    ensures TotalN(Counts(rows, key, ks, p)) == CountIn(rows, key, ks, p)
  {
    if |ks| == 0 {
      CountInEmpty(rows, key, p);
    } else {
      assert Counts(rows, key, ks, p)[1..] == Counts(rows, key, ks[1..], p);
      assert ks == [ks[0]] + ks[1..];
      assert ks[0] !in ks[1..] by {
        forall j | 0 <= j < |ks[1..]| ensures ks[1..][j] != ks[0] {
          assert ks[1..][j] == ks[j + 1];
        }
      }
      CountsTotal(rows, key, ks[1..], p);
      CountInCons(rows, key, ks[0], ks[1..], p);
    }
  }

  /** When every row's key is one of ks, summing over those keys is summing the whole column. */
  lemma {:induction false} SumInAll<K>(rows: seq<Record>, key: Record -> Option<K>, ks: seq<K>, c: Column)
    requires forall i :: 0 <= i < |rows| ==> key(rows[i]).Some? && key(rows[i]).value in ks
    ensures SumIn(rows, key, ks, c) == Sum(rows, c)
  {
    if |rows| > 0 {
      SumInAll(rows[1..], key, ks, c);
    }
  }

  /** When every row has one of the keys ks and satisfies p, counting over those keys counts every row. */
  lemma {:induction false} CountInAll<K>(rows: seq<Record>, key: Record -> Option<K>, ks: seq<K>, p: Record -> bool)
    requires forall i :: 0 <= i < |rows| ==> key(rows[i]).Some? && key(rows[i]).value in ks && p(rows[i])
    ensures CountIn(rows, key, ks, p) == |rows|
  {
    if |rows| > 0 {
      CountInAll(rows[1..], key, ks, p);
    }
  }

  /** A weaker row condition counts at least as many rows of a group. */
  lemma {:induction false} CountWhereMono<K>(rows: seq<Record>, key: Record -> Option<K>, k: K, p: Record -> bool, q: Record -> bool)
    requires forall i :: 0 <= i < |rows| ==> p(rows[i]) ==> q(rows[i])
    ensures CountWhere(rows, key, k, p) <= CountWhere(rows, key, k, q)
  {
    if |rows| > 0 {
      CountWhereMono(rows[1..], key, k, p, q);
    }
  }

  /** The keys that occur, without repetition, in order of first appearance. */
  function DistinctKeys<K(==)>(rows: seq<Record>, key: Record -> Option<K>): (ks: seq<K>)
    ensures Distinct(ks)
    ensures forall i :: 0 <= i < |rows| && key(rows[i]).Some? ==> key(rows[i]).value in ks
    ensures forall j :: 0 <= j < |ks| ==> exists i :: 0 <= i < |rows| && key(rows[i]) == Some(ks[j])
  {
    if |rows| == 0 then []
    else
      var pre := rows[..|rows| - 1];
      var ks := DistinctKeys(pre, key);
      assert forall i :: 0 <= i < |pre| ==> pre[i] == rows[i];
      var last := key(rows[|rows| - 1]);
      if last.Some? && last.value !in ks then ks + [last.value] else ks
  }
}
