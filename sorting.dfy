/**
 * The descending sort and the truncation the rankings use, as a stable
 * insertion sort on a real-valued key.
 */
module Sorting {

  predicate NonIncreasing<T>(s: seq<T>, key: T -> real) {
    forall i, j :: 0 <= i < j < |s| ==> key(s[i]) >= key(s[j])
  }

  /** The elements of s whose key is v, in their order in s. */
  function Ties<T>(s: seq<T>, key: T -> real, v: real): seq<T> {
    if |s| == 0 then []
    else if key(s[0]) == v then [s[0]] + Ties(s[1..], key, v)
    else Ties(s[1..], key, v)
  }

  /** Places x after every element with a strictly larger key, so before its ties. */
  function Insert<T>(x: T, s: seq<T>, key: T -> real): (r: seq<T>)
    ensures |r| == |s| + 1
    ensures multiset(r) == multiset(s) + multiset{x}
  {
    if |s| == 0 then [x]
    else if key(s[0]) > key(x) then
      assert s == [s[0]] + s[1..];
      [s[0]] + Insert(x, s[1..], key)
    else [x] + s
  }

  function SortDesc<T>(s: seq<T>, key: T -> real): (r: seq<T>)
    ensures |r| == |s|
    ensures multiset(r) == multiset(s)
  {
    if |s| == 0 then []
    else
      assert s == [s[0]] + s[1..];
      Insert(s[0], SortDesc(s[1..], key), key)
  }

  lemma {:induction false} InsertSorted<T>(x: T, s: seq<T>, key: T -> real)
    requires NonIncreasing(s, key)
    ensures NonIncreasing(Insert(x, s, key), key)
    ensures |s| > 0 ==> key(Insert(x, s, key)[0]) == if key(s[0]) > key(x) then key(s[0]) else key(x)
  {
    if |s| > 0 && key(s[0]) > key(x) {
      InsertSorted(x, s[1..], key);
      var t := Insert(x, s[1..], key);
      assert forall m :: 0 <= m < |t| ==> key(s[0]) >= key(t[m]) by {
        forall m | 0 <= m < |t| ensures key(s[0]) >= key(t[m]) {
          assert t[m] in multiset(s[1..]) + multiset{x};
          if t[m] in multiset(s[1..]) {
            var n :| 0 <= n < |s[1..]| && s[1..][n] == t[m];
            assert s[1..][n] == s[n + 1];
          }
        }
      }
    }
  }

  lemma TiesCons<T>(y: T, t: seq<T>, key: T -> real, v: real)
    ensures Ties([y] + t, key, v) == (if key(y) == v then [y] else []) + Ties(t, key, v)
  {
    assert ([y] + t)[0] == y && ([y] + t)[1..] == t;
  }

  lemma {:induction false} InsertTies<T>(x: T, s: seq<T>, key: T -> real, v: real)
    ensures Ties(Insert(x, s, key), key, v) == (if key(x) == v then [x] else []) + Ties(s, key, v)
  {
    var tx: seq<T> := if key(x) == v then [x] else [];
    if |s| == 0 {
      TiesCons(x, [], key, v);
      assert tx + [] == tx;
    } else if key(s[0]) > key(x) {
      var t := Insert(x, s[1..], key);
      var t0: seq<T> := if key(s[0]) == v then [s[0]] else [];
      assert s == [s[0]] + s[1..];
      TiesCons(s[0], t, key, v);
      TiesCons(s[0], s[1..], key, v);
      InsertTies(x, s[1..], key, v);
      assert tx == [] || t0 == [];
      assert t0 + (tx + Ties(s[1..], key, v)) == tx + (t0 + Ties(s[1..], key, v));
    } else {
      TiesCons(x, s, key, v);
    }
  }

  /** The result is in non-increasing key order (and, by SortDesc's contract, a permutation of the input). */
  lemma {:induction false} SortDescSorted<T>(s: seq<T>, key: T -> real)
    ensures NonIncreasing(SortDesc(s, key), key)
  {
    if |s| > 0 {
      SortDescSorted(s[1..], key);
      InsertSorted(s[0], SortDesc(s[1..], key), key);
    }
  }

  /** The sort is stable: the elements with one key value keep their input order. */
  lemma {:induction false} SortDescStable<T>(s: seq<T>, key: T -> real, v: real)
    ensures Ties(SortDesc(s, key), key, v) == Ties(s, key, v)
  {
    if |s| > 0 {
      SortDescStable(s[1..], key, v);
      InsertTies(s[0], SortDesc(s[1..], key), key, v);
    }
  }

  /** The first n elements, or all of them when there are fewer: `head(n)`. */
  function Head<T>(s: seq<T>, n: nat): (r: seq<T>)
    ensures |r| == if |s| < n then |s| else n
    ensures forall i :: 0 <= i < |r| ==> r[i] == s[i]
  {
    if |s| <= n then s else s[..n]
  }

  ghost predicate Unique<T>(s: seq<T>) {
    forall i, j :: 0 <= i < j < |s| ==> s[i] != s[j]
  }

  lemma {:induction false} UniqueOccursOnce<T>(s: seq<T>, x: T)
    requires Unique(s)
    ensures multiset(s)[x] <= 1
  {
    if |s| > 0 {
      assert s == [s[0]] + s[1..];
      UniqueOccursOnce(s[1..], x);
      if s[0] == x {
        assert x !in s[1..] by {
          forall n | 0 <= n < |s[1..]| ensures s[1..][n] != x {
            assert s[1..][n] == s[n + 1];
          }
        }
      }
    }
  }

  /** A rearrangement of a sequence without repetitions has none either. */
  lemma PermutationUnique<T>(a: seq<T>, b: seq<T>)
    requires multiset(a) == multiset(b) && Unique(a)
    ensures Unique(b)
  {
    forall i, j | 0 <= i < j < |b| ensures b[i] != b[j] {
      assert b == b[..j] + [b[j]] + b[j + 1..];
      assert b[i] in b[..j];
      assert multiset(b)[b[j]] >= multiset(b[..j])[b[j]] + 1;
      UniqueOccursOnce(a, b[j]);
      assert b[j] !in multiset(b[..j]);
    }
  }
}
