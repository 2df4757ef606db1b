/** Column operations the tables of both calibration versions are built from:
    sums of columns, distinct values of a column, sorted group keys and the
    cartesian product of two tables. */
module TableOps {

  /** Sum of a column of reals, accumulated from the first entry to the last. */
  function Sum(s: seq<real>): real
  {
    if s == [] then 0.0 else Sum(s[..|s| - 1]) + s[|s| - 1]
  }

  /** Absolute value of a real. */
  function Abs(x: real): (r: real)
    ensures r >= 0.0 && (r == x || r == -x)
  {
    if x < 0.0 then -x else x
  }

  /** A non-zero real divided by itself is 1. */
  lemma DivSelf(x: real)
    requires x != 0.0
    ensures x / x == 1.0
  {
  }

  lemma SumAppend(s: seq<real>, x: real)
    ensures Sum(s + [x]) == Sum(s) + x
  {
    assert (s + [x])[..|s|] == s;
  }

  /** A column of zeros sums to 0. */
  lemma {:induction false} SumOfZeros(s: seq<real>)
    requires forall i | 0 <= i < |s| :: s[i] == 0.0
    ensures Sum(s) == 0.0
  {
    if s != [] {
      SumOfZeros(s[..|s| - 1]);
    }
  }

  /** A column of non-negative entries sums to at least 0, and to more than
      0 when one of its entries is positive. */
  lemma {:induction false} SumPositive(s: seq<real>)
    requires forall i | 0 <= i < |s| :: s[i] >= 0.0
    ensures Sum(s) >= 0.0
    ensures (exists i | 0 <= i < |s| :: s[i] > 0.0) ==> Sum(s) > 0.0
  {
    if s != [] {
      var n := |s| - 1;
      SumPositive(s[..n]);
      if exists i | 0 <= i < |s| :: s[i] > 0.0 {
        var i :| 0 <= i < |s| && s[i] > 0.0;
        if i < n {
          assert s[..n][i] > 0.0;
        }
      }
    }
  }

  /** Every entry of `s` multiplied by `c`. */
  function Scaled(s: seq<real>, c: real): (r: seq<real>)
    ensures |r| == |s|
    ensures forall i | 0 <= i < |s| :: r[i] == s[i] * c
  {
    seq(|s|, i requires 0 <= i < |s| => s[i] * c)
  }

  /** Scaling a column scales its sum by the same factor. */
  lemma {:induction false} SumScaled(s: seq<real>, c: real)
    ensures Sum(Scaled(s, c)) == Sum(s) * c
  {
    if s != [] {
      var n := |s| - 1;
      var t := Scaled(s, c);
      assert t[..n] == Scaled(s[..n], c) by {
        forall i | 0 <= i < n ensures t[..n][i] == Scaled(s[..n], c)[i] {
          assert t[..n][i] == t[i] == s[i] * c;
        }
      }
      SumScaled(s[..n], c);
    }
  }

  /** The distinct values of a column (pandas `unique()`, as a set). */
  function Values<T>(s: seq<T>): set<T>
  {
    set x | x in s
  }

  predicate NoDuplicates<T(==)>(s: seq<T>)
  {
    forall i, j | 0 <= i < j < |s| :: s[i] != s[j]
  }

  /** A column has as many distinct values as rows exactly when no value repeats. */
  lemma {:induction false} DistinctCount<T>(s: seq<T>)
    ensures |Values(s)| <= |s|
    ensures |Values(s)| == |s| <==> NoDuplicates(s)
  {
    if s != [] {
      var n := |s| - 1;
      var p, x := s[..n], s[n];
      DistinctCount(p);
      assert s == p + [x];
      assert Values(s) == Values(p) + {x};
      if x in Values(p) {
        var i :| 0 <= i < n && p[i] == x;
        assert s[i] == s[n];
      } else {
        assert |Values(s)| == |Values(p)| + 1;
        if NoDuplicates(p) {
          forall i, j | 0 <= i < j < |s| ensures s[i] != s[j] {
            if j == n {
              assert s[i] == p[i];
            } else {
              assert s[i] == p[i] && s[j] == p[j];
            }
          }
        } else {
          var i, j :| 0 <= i < j < n && p[i] == p[j];
          assert s[i] == s[j];
        }
      }
    }
  }

  predicate StrictlyIncreasing(s: seq<int>)
  {
    forall i, j | 0 <= i < j < |s| :: s[i] < s[j]
  }

  /** Inserts a key into a strictly increasing list of keys, once. */
  function InsertKey(s: seq<int>, x: int): (r: seq<int>)
    requires StrictlyIncreasing(s)
    ensures StrictlyIncreasing(r)
    ensures forall v :: v in r <==> v in s || v == x
  {
    if s == [] then [x]
    else if x < s[0] then [x] + s
    else if x == s[0] then s
    else
      var t := InsertKey(s[1..], x);
      forall i | 0 <= i < |t| ensures t[i] > s[0] {
        assert t[i] in t;
        if t[i] != x {
          var k :| 0 <= k < |s| - 1 && s[1..][k] == t[i];
          assert s[k + 1] == t[i];
        }
      }
      [s[0]] + t
  }

  /** The distinct keys of a column in ascending order: the index of a pandas
      `groupby` on that column. */
  function SortedKeys(s: seq<int>): (r: seq<int>)
    ensures StrictlyIncreasing(r)
    ensures forall v :: v in r <==> v in s
  {
    if s == [] then []
    else
      var n := |s| - 1;
      assert s == s[..n] + [s[n]];
      InsertKey(SortedKeys(s[..n]), s[n])
  }

  /** The rows `f(x, y)` for every `x` of `xs` and every `y` of `ys`, with `xs`
      in the outer position: the record list built by two nested loops. */
  function Product<A, B, C>(xs: seq<A>, ys: seq<B>, f: (A, B) -> C): (r: seq<C>)
    ensures |r| == |xs| * |ys|
  {
    if xs == [] then []
    else
      var n := |xs| - 1;
      assert |xs| * |ys| == n * |ys| + |ys|;
      Product(xs[..n], ys, f) + seq(|ys|, j requires 0 <= j < |ys| => f(xs[n], ys[j]))
  }

  lemma {:induction false} AtLeastOnce(d: int, n: int)
    requires d >= 1 && n > 0
    ensures d * n >= n
  {
    if d > 1 {
      AtLeastOnce(d - 1, n);
      assert d * n == (d - 1) * n + n;
    }
  }

  lemma DivModUnique(k: int, n: int, q: int, r: int)
    requires 0 < n && 0 <= r < n && k == q * n + r
    ensures k / n == q && k % n == r
  {
    var q', r' := k / n, k % n;
    assert k == q' * n + r' && 0 <= r' < n;
    assert (q - q') * n == r' - r;
    if q > q' {
      AtLeastOnce(q - q', n);
    } else if q < q' {
      AtLeastOnce(q' - q, n);
    }
  }

  /** Row `k` of a product pairs entry `k / |ys|` of `xs` with entry `k % |ys|` of
      `ys`: one row per pair, `xs`-major. */
  lemma {:induction false} ProductAt<A, B, C>(xs: seq<A>, ys: seq<B>, f: (A, B) -> C, k: int)
    requires 0 <= k < |xs| * |ys|
    ensures 0 <= k / |ys| < |xs| && 0 <= k % |ys| < |ys|
    ensures Product(xs, ys, f)[k] == f(xs[k / |ys|], ys[k % |ys|])
  {
    var n, m := |ys|, |xs| - 1;
    assert n > 0;
    assert |xs| * n == m * n + n;
    if k < m * n {
      ProductAt(xs[..m], ys, f, k);
      assert xs[..m][k / n] == xs[k / n];
    } else {
      DivModUnique(k, n, m, k - m * n);
    }
  }
}
