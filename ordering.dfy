/**
 * `ORDER BY <time> DESC` and `LIMIT n` over table rows. SQLite leaves the
 * order of rows with equal times unspecified; `SortDesc` is one admissible
 * order, and the read operations are specified by `NewestFirst`, which every
 * admissible order satisfies.
 */
module Ordering {

  /** Keys never increase along `xs`. */
  predicate SortedDesc<T>(xs: seq<T>, key: T -> int) {
    forall i, j :: 0 <= i < j < |xs| ==> key(xs[i]) >= key(xs[j])
  }

  /** `ys` is an admissible result of `ORDER BY key DESC` over the rows `xs`. */
  predicate NewestFirst<T(==)>(ys: seq<T>, xs: seq<T>, key: T -> int) {
    multiset(ys) == multiset(xs) && SortedDesc(ys, key)
  }

  /** `x` placed into the descending `s` before the first row whose key is not larger. */
  function InsertDesc<T(==)>(x: T, s: seq<T>, key: T -> int): (r: seq<T>)
    ensures multiset(r) == multiset(s) + multiset{x}
    ensures |r| == |s| + 1
  {
    if |s| == 0 || key(x) >= key(s[0]) then [x] + s
    else
      assert s == [s[0]] + s[1..];
      [s[0]] + InsertDesc(x, s[1..], key)
  }

  /** The rows sorted by descending key (insertion sort). */
  function SortDesc<T(==)>(xs: seq<T>, key: T -> int): (r: seq<T>)
    ensures multiset(r) == multiset(xs)
    ensures |r| == |xs|
  {
    if |xs| == 0 then []
    else
      assert xs == [xs[0]] + xs[1..];
      InsertDesc(xs[0], SortDesc(xs[1..], key), key)
  }

  lemma {:induction false} InsertDescSorted<T>(x: T, s: seq<T>, key: T -> int)
    requires SortedDesc(s, key)
    ensures SortedDesc(InsertDesc(x, s, key), key)
    ensures |s| > 0 ==> InsertDesc(x, s, key)[0] == x || InsertDesc(x, s, key)[0] == s[0]
  {
    if |s| > 0 && key(x) < key(s[0]) {
      var t := InsertDesc(x, s[1..], key);
      InsertDescSorted(x, s[1..], key);
      var r := [s[0]] + t;
      forall i, j | 0 <= i < j < |r| ensures key(r[i]) >= key(r[j]) {
        if i == 0 {
          if |s| > 1 {
            assert t[0] == x || t[0] == s[1];
          }
          assert key(s[0]) >= key(t[0]);
          assert r[j] == t[j - 1];
        } else {
          assert r[i] == t[i - 1] && r[j] == t[j - 1];
        }
      }
    }
  }

  /** `SortDesc` produces an admissible newest-first order of its input. */
  lemma {:induction false} SortDescIsNewestFirst<T>(xs: seq<T>, key: T -> int)
    ensures NewestFirst(SortDesc(xs, key), xs, key)
  {
    if |xs| > 0 {
      SortDescIsNewestFirst(xs[1..], key);
      InsertDescSorted(xs[0], SortDesc(xs[1..], key), key);
    }
  }

  /** `LIMIT n`: a negative limit means no limit. */
  function Limit<T>(xs: seq<T>, n: int): (r: seq<T>)
    ensures n < 0 ==> r == xs
    ensures 0 <= n ==> |r| == if n < |xs| then n else |xs|
    ensures r == xs[..|r|]
  {
    if n < 0 || n >= |xs| then xs else xs[..n]
  }

  /**
   * A limited newest-first read returns the newest rows: no row it leaves
   * out is newer than a row it returns, and what it returns stays in order.
   */
  lemma LimitKeepsNewest<T>(ys: seq<T>, n: int, key: T -> int)
    requires SortedDesc(ys, key)
    ensures SortedDesc(Limit(ys, n), key)
    ensures forall i, j :: 0 <= i < |Limit(ys, n)| <= j < |ys| ==> key(ys[j]) <= key(Limit(ys, n)[i])
  {
  }
}
