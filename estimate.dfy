/**
  The posterior-mean point estimate (model/gp.py, `optimal_params`).

  The sampler's chain is a walker x iteration x parameter array. The estimate
  drops the first `burnin` iterations of every walker, pools the remaining
  sample vectors walker by walker (`reshape(-1, dim)`) and averages each
  parameter over the pool. With an empty pool NumPy yields a vector of NaNs;
  the model answers `None` there.
 */
module Estimate {
  import opened Wrappers

  /** The chain with its shape; `samples[w][i][p]` is parameter p of walker w at iteration i. */
  datatype Chain = Chain(walkers: nat, iterations: nat, dim: nat, samples: seq<seq<seq<real>>>)
  {
    /** The samples form a walkers x iterations x dim array, with at least one parameter. */
    predicate WellShaped()
    {
      && dim >= 1
      && |samples| == walkers
      && (forall w :: 0 <= w < walkers ==> |samples[w]| == iterations)
      && (forall w, i :: 0 <= w < walkers && 0 <= i < |samples[w]| ==> |samples[w][i]| == dim)
    }
  }

  /** The sum of a sequence of reals. */
  function Sum(s: seq<real>): real
  {
    if s == [] then 0.0 else s[0] + Sum(s[1..])
  }

  /** Python's `xs[burnin:]`: empty when burnin is past the end. */
  function Drop<T>(xs: seq<T>, burnin: nat): (r: seq<T>)
    ensures |r| == if burnin <= |xs| then |xs| - burnin else 0
    ensures forall i :: 0 <= i < |r| ==> r[i] == xs[burnin + i]
  {
    if burnin <= |xs| then xs[burnin..] else []
  }

  /** `chain[:, burnin:, :]`: every walker without its first `burnin` iterations. */
  function Retained(c: Chain, burnin: nat): (r: seq<seq<seq<real>>>)
    requires c.WellShaped()
    ensures |r| == c.walkers
    ensures forall w :: 0 <= w < |r| ==> r[w] == Drop(c.samples[w], burnin)
  {
    seq(c.walkers, w requires 0 <= w < c.walkers => Drop(c.samples[w], burnin))
  }

  /** `reshape(-1, dim)`: the sample vectors of all walkers, walker by walker. */
  function Flatten(ws: seq<seq<seq<real>>>): seq<seq<real>>
  {
    if ws == [] then [] else ws[0] + Flatten(ws[1..])
  }

  /** Column p of a list of sample vectors. */
  function Component(rows: seq<seq<real>>, p: nat): (r: seq<real>)
    requires forall n :: 0 <= n < |rows| ==> p < |rows[n]|
    ensures |r| == |rows| && forall n :: 0 <= n < |rows| ==> r[n] == rows[n][p]
  {
    seq(|rows|, n requires 0 <= n < |rows| => rows[n][p])
  }

  /**
    The total of parameter p over every retained sample, walker by walker and
    iteration by iteration: the reference the pooled sum is checked against.
   */
  function SampleTotal(ws: seq<seq<seq<real>>>, p: nat): real
    requires forall w, i :: 0 <= w < |ws| && 0 <= i < |ws[w]| ==> p < |ws[w][i]|
  {
    if ws == [] then 0.0 else Sum(Component(ws[0], p)) + SampleTotal(ws[1..], p)
  }

  /** The number of sample vectors that survive the burn-in. */
  function PoolSize(c: Chain, burnin: nat): nat
  {
    if burnin <= c.iterations then c.walkers * (c.iterations - burnin) else 0
  }

  /** `np.mean(rows, axis=0)` over a non-empty list of vectors of length dim. */
  function ColumnMeans(rows: seq<seq<real>>, dim: nat): (r: seq<real>)
    requires rows != []
    requires forall n :: 0 <= n < |rows| ==> |rows[n]| == dim
    ensures |r| == dim
    ensures forall p :: 0 <= p < dim ==> r[p] * (|rows| as real) == Sum(Component(rows, p))
  {
    seq(dim, p requires 0 <= p < dim => Sum(Component(rows, p)) / (|rows| as real))
  }

  /**
    `optimal_params`: for each parameter p, the mean of `samples[w][i][p]` over
    every walker w and every iteration i >= burnin; `None` (NumPy's NaNs) when
    no sample survives the burn-in.
   */
  function OptimalParams(c: Chain, burnin: nat): (r: Option<seq<real>>)
    requires c.WellShaped()
    ensures r.None? <==> c.walkers == 0 || burnin >= c.iterations
    ensures r.Some? ==> |r.value| == c.dim
    ensures r.Some? ==> PoolSize(c, burnin) > 0 && forall p :: 0 <= p < c.dim ==>
              Repeat(PoolSize(c, burnin), r.value[p]) == SampleTotal(Retained(c, burnin), p)
    ensures r.Some? ==> forall p :: 0 <= p < c.dim ==>
              r.value[p] == SampleTotal(Retained(c, burnin), p) / (PoolSize(c, burnin) as real)
  {
    var ws := Retained(c, burnin);
    var rows := Flatten(ws);
    PooledShape(c, burnin);
    PooledTotals(ws, c.dim);
    PoolSizeZero(c, burnin);
    if rows == [] then None
    else
      MeansRepeat(rows, c.dim);
      Some(ColumnMeans(rows, c.dim))
  }

  /**
    `reshape(-1, dim)` keeps exactly the walkers' rows: each of them occurs in
    the pool, and each pooled row comes from some walker.
   */
  lemma {:induction false} FlattenRows(ws: seq<seq<seq<real>>>)
    ensures forall w, i :: 0 <= w < |ws| && 0 <= i < |ws[w]| ==> ws[w][i] in Flatten(ws)
    ensures forall row :: row in Flatten(ws) ==>
              exists w, i :: 0 <= w < |ws| && 0 <= i < |ws[w]| && ws[w][i] == row
  {
    if ws != [] {
      var rest := ws[1..];
      FlattenRows(rest);
      assert Flatten(ws) == ws[0] + Flatten(rest);
      forall w, i | 0 <= w < |ws| && 0 <= i < |ws[w]|
        ensures ws[w][i] in Flatten(ws)
      {
        if w > 0 {
          assert ws[w] == rest[w - 1];
        }
      }
      forall row | row in Flatten(ws)
        ensures exists w, i :: 0 <= w < |ws| && 0 <= i < |ws[w]| && ws[w][i] == row
      {
        if row in ws[0] {
          var i :| 0 <= i < |ws[0]| && ws[0][i] == row;
          assert ws[0][i] == row;
        } else {
          assert row in Flatten(rest);
          var w, i :| 0 <= w < |rest| && 0 <= i < |rest[w]| && rest[w][i] == row;
          assert ws[w + 1][i] == row;
        }
      }
    }
  }

  /** The mean of a column, repeated once per row, adds up to the column's sum. */
  lemma MeansRepeat(rows: seq<seq<real>>, dim: nat)
    requires rows != []
    requires forall n :: 0 <= n < |rows| ==> |rows[n]| == dim
    ensures forall p :: 0 <= p < dim ==> Repeat(|rows|, ColumnMeans(rows, dim)[p]) == Sum(Component(rows, p))
  {
    forall p | 0 <= p < dim
      ensures Repeat(|rows|, ColumnMeans(rows, dim)[p]) == Sum(Component(rows, p))
    {
      RepeatIsProduct(|rows|, ColumnMeans(rows, dim)[p]);
    }
  }

  /** The pool is empty exactly when there is no walker or no iteration survives. */
  lemma PoolSizeZero(c: Chain, burnin: nat)
    ensures PoolSize(c, burnin) == 0 <==> c.walkers == 0 || burnin >= c.iterations
  {
  }

  /** The sum of a concatenation is the sum of the parts. */
  lemma {:induction false} SumAppend(a: seq<real>, b: seq<real>)
    ensures Sum(a + b) == Sum(a) + Sum(b)
  {
    if a == [] {
      assert a + b == b;
    } else {
      assert (a + b)[1..] == a[1..] + b;
      SumAppend(a[1..], b);
    }
  }

  /** Every row of `Flatten(ws)` is a row of some walker, in walker order. */
  lemma {:induction false} FlattenIndex(ws: seq<seq<seq<real>>>, dim: nat)
    requires forall w, i :: 0 <= w < |ws| && 0 <= i < |ws[w]| ==> |ws[w][i]| == dim
    ensures forall n :: 0 <= n < |Flatten(ws)| ==> |Flatten(ws)[n]| == dim
  {
    if ws != [] {
      FlattenIndex(ws[1..], dim);
      assert forall w, i :: 0 <= w < |ws[1..]| && 0 <= i < |ws[1..][w]| ==> ws[1..][w][i] == ws[w + 1][i];
    }
  }

  /** The pool holds walkers x (iterations - burnin) vectors of length dim. */
  lemma PooledShape(c: Chain, burnin: nat)
    requires c.WellShaped()
    ensures |Flatten(Retained(c, burnin))| == PoolSize(c, burnin)
    ensures forall n :: 0 <= n < |Flatten(Retained(c, burnin))| ==> |Flatten(Retained(c, burnin))[n]| == c.dim
  {
    var ws := Retained(c, burnin);
    FlattenLength(ws, if burnin <= c.iterations then c.iterations - burnin else 0);
    FlattenIndex(ws, c.dim);
  }

  /** Flattening n walkers of m rows each gives n * m rows. */
  lemma {:induction false} FlattenLength(ws: seq<seq<seq<real>>>, m: nat)
    requires forall w :: 0 <= w < |ws| ==> |ws[w]| == m
    ensures |Flatten(ws)| == |ws| * m
  {
    if ws != [] {
      FlattenLength(ws[1..], m);
    }
  }

  /** Summing column p of the pooled rows gives the walker-by-walker total. */
  lemma {:induction false} PooledTotal(ws: seq<seq<seq<real>>>, p: nat)
    requires forall w, i :: 0 <= w < |ws| && 0 <= i < |ws[w]| ==> p < |ws[w][i]|
    ensures forall n :: 0 <= n < |Flatten(ws)| ==> p < |Flatten(ws)[n]|
    ensures Sum(Component(Flatten(ws), p)) == SampleTotal(ws, p)
  {
    if ws != [] {
      var rest := ws[1..];
      assert forall w, i :: 0 <= w < |rest| && 0 <= i < |rest[w]| ==> rest[w][i] == ws[w + 1][i];
      PooledTotal(rest, p);
      assert Flatten(ws) == ws[0] + Flatten(rest);
      assert Component(Flatten(ws), p) == Component(ws[0], p) + Component(Flatten(rest), p);
      SumAppend(Component(ws[0], p), Component(Flatten(rest), p));
    }
  }

  /** `PooledTotal` for every parameter at once. */
  lemma PooledTotals(ws: seq<seq<seq<real>>>, dim: nat)
    requires forall w, i :: 0 <= w < |ws| && 0 <= i < |ws[w]| ==> |ws[w][i]| == dim
    ensures forall n :: 0 <= n < |Flatten(ws)| ==> |Flatten(ws)[n]| == dim
    ensures forall p :: 0 <= p < dim ==> Sum(Component(Flatten(ws), p)) == SampleTotal(ws, p)
  {
    FlattenIndex(ws, dim);
    forall p | 0 <= p < dim
      ensures Sum(Component(Flatten(ws), p)) == SampleTotal(ws, p)
    {
      PooledTotal(ws, p);
    }
  }

  /** n copies of v added up: n * v, written without a product. */
  function Repeat(n: nat, v: real): real
  {
    if n == 0 then 0.0 else v + Repeat(n - 1, v)
  }

  /** Adding up n copies of v is multiplying v by n. */
  lemma {:induction false} RepeatIsProduct(n: nat, v: real)
    ensures Repeat(n, v) == (n as real) * v
  {
    if n > 0 {
      RepeatIsProduct(n - 1, v);
    }
  }

  /** A sum of n values within [lo, hi] lies within [n * lo, n * hi]. */
  lemma {:induction false} SumBounds(s: seq<real>, lo: real, hi: real)
    requires forall n :: 0 <= n < |s| ==> lo <= s[n] <= hi
    ensures Repeat(|s|, lo) <= Sum(s) <= Repeat(|s|, hi)
  {
    if s != [] {
      SumBounds(s[1..], lo, hi);
    }
  }

  /** Bounds on parameter p in every walker's rows carry over to the pooled rows. */
  lemma {:induction false} FlattenWithin(ws: seq<seq<seq<real>>>, p: nat, lo: real, hi: real)
    requires forall w, i :: 0 <= w < |ws| && 0 <= i < |ws[w]| ==> p < |ws[w][i]| && lo <= ws[w][i][p] <= hi
    ensures forall n :: 0 <= n < |Flatten(ws)| ==> p < |Flatten(ws)[n]| && lo <= Flatten(ws)[n][p] <= hi
  {
    if ws != [] {
      var rest := ws[1..];
      assert forall w :: 0 <= w < |rest| ==> rest[w] == ws[w + 1];
      FlattenWithin(rest, p, lo, hi);
      assert Flatten(ws) == ws[0] + Flatten(rest);
    }
  }

  /** Bounds on the retained samples of parameter p hold for every pooled row. */
  lemma RetainedWithin(c: Chain, burnin: nat, p: nat, lo: real, hi: real)
    requires c.WellShaped() && p < c.dim
    requires forall w, i :: 0 <= w < c.walkers && burnin <= i < c.iterations ==>
               lo <= c.samples[w][i][p] <= hi
    ensures forall n :: 0 <= n < |Flatten(Retained(c, burnin))| ==>
              p < |Flatten(Retained(c, burnin))[n]| && lo <= Flatten(Retained(c, burnin))[n][p] <= hi
  {
    var ws := Retained(c, burnin);
    forall w, i | 0 <= w < |ws| && 0 <= i < |ws[w]|
      ensures p < |ws[w][i]| && lo <= ws[w][i][p] <= hi
    {
      assert ws[w][i] == c.samples[w][burnin + i];
    }
    FlattenWithin(ws, p, lo, hi);
  }

  /** The retained samples of parameter p, each within [lo, hi], total within [n * lo, n * hi] for n samples. */
  lemma RetainedTotalBounds(c: Chain, burnin: nat, p: nat, lo: real, hi: real)
    requires c.WellShaped() && p < c.dim
    requires forall w, i :: 0 <= w < c.walkers && burnin <= i < c.iterations ==>
               lo <= c.samples[w][i][p] <= hi
    ensures Repeat(PoolSize(c, burnin), lo) <= SampleTotal(Retained(c, burnin), p)
    ensures SampleTotal(Retained(c, burnin), p) <= Repeat(PoolSize(c, burnin), hi)
  {
    var ws := Retained(c, burnin);
    var rows := Flatten(ws);
    RetainedWithin(c, burnin, p, lo, hi);
    SumBounds(Component(rows, p), lo, hi);
    PooledShape(c, burnin);
    PooledTotal(ws, p);
  }

  /** For n > 0, adding up n copies is strictly monotone in the value copied. */
  lemma {:induction false} RepeatStrictlyMonotone(n: nat, a: real, b: real)
    requires n > 0 && a < b
    ensures Repeat(n, a) < Repeat(n, b)
  {
    if n > 1 {
      RepeatStrictlyMonotone(n - 1, a, b);
    }
  }

  /** A mean x of n > 0 values (n copies of x add up to their total) within [lo, hi]. */
  lemma MeanBounds(x: real, n: nat, total: real, lo: real, hi: real)
    requires n > 0 && Repeat(n, x) == total
    requires Repeat(n, lo) <= total <= Repeat(n, hi)
    ensures lo <= x <= hi
  {
    if x < lo {
      RepeatStrictlyMonotone(n, x, lo);
    }
    if hi < x {
      RepeatStrictlyMonotone(n, hi, x);
    }
  }

  /**
    Each component of the estimate lies between any lower and upper bound of
    the retained samples of that parameter, in particular between their
    minimum and maximum.
   */
  lemma MeanWithinSampleRange(c: Chain, burnin: nat, p: nat, lo: real, hi: real)
    requires c.WellShaped() && p < c.dim
    requires OptimalParams(c, burnin).Some?
    requires forall w, i :: 0 <= w < c.walkers && burnin <= i < c.iterations ==>
               lo <= c.samples[w][i][p] <= hi
    ensures lo <= OptimalParams(c, burnin).value[p] <= hi
  {
    RetainedTotalBounds(c, burnin, p, lo, hi);
    MeanBounds(OptimalParams(c, burnin).value[p], PoolSize(c, burnin),
               SampleTotal(Retained(c, burnin), p), lo, hi);
  }

  /** When every retained sample of parameter p equals v, the estimate of p is exactly v. */
  lemma ConstantChainMean(c: Chain, burnin: nat, p: nat, v: real)
    requires c.WellShaped() && p < c.dim
    requires c.walkers > 0 && burnin < c.iterations
    requires forall w, i :: 0 <= w < c.walkers && burnin <= i < c.iterations ==> c.samples[w][i][p] == v
    ensures OptimalParams(c, burnin).Some?
    ensures OptimalParams(c, burnin).value[p] == v
  {
    MeanWithinSampleRange(c, burnin, p, v, v);
  }
}
