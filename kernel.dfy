/**
  The kernel matrix of the Gaussian process (model/gp.py, `_construct_kernel`).

  A parameter vector holds the scale parameters (taus) followed by the signal
  variance as its last entry. The user-supplied kernel is any function of two
  timepoints and the taus; nothing is assumed about it (not even symmetry).
 */
module Kernel {

  /** The user-supplied kernel: (time a, time b, taus) -> covariance contribution. */
  type KernelFn = (int, int, seq<real>) -> real

  /** The signal variance: the last parameter. */
  function SigVar(params: seq<real>): real
    requires |params| >= 1
  {
    params[|params| - 1]
  }

  /** The scale parameters: every parameter but the last. */
  function Taus(params: seq<real>): (taus: seq<real>)
    requires |params| >= 1
    ensures |taus| == |params| - 1
  {
    params[..|params| - 1]
  }

  /** The timepoints 0, 1, ..., n - 1, as Python's `range(n)`. */
  function Range(n: nat): (r: seq<int>)
    ensures |r| == n && forall i :: 0 <= i < n ==> r[i] == i
  {
    seq(n, i => i)
  }

  /** The identity matrix of size n, as `np.eye(n)`. */
  function Identity(n: nat): seq<seq<real>>
  {
    seq(n, i => seq(n, j => if i == j then 1.0 else 0.0))
  }

  /**
    The value the construction leaves in cell (i, j): the diagonal keeps the 1
    of the identity; an off-diagonal pair is evaluated once, lower index first.
   */
  function Entry(k: KernelFn, params: seq<real>, times: seq<int>, i: nat, j: nat): real
    requires |params| >= 1 && i < |times| && j < |times|
  {
    if i == j then 1.0
    else if i < j then SigVar(params) * k(times[i], times[j], Taus(params))
    else SigVar(params) * k(times[j], times[i], Taus(params))
  }

  /**
    The T x T kernel matrix over `times`: unit diagonal, symmetric, and
    `sig_var * k(times[i], times[j], taus)` above the diagonal.
   */
  function KernelMatrix(k: KernelFn, params: seq<real>, times: seq<int>): (K: seq<seq<real>>)
    requires |params| >= 1
    ensures |K| == |times|
    ensures forall i :: 0 <= i < |K| ==> |K[i]| == |times|
    ensures forall i :: 0 <= i < |K| ==> K[i][i] == 1.0
    ensures forall i, j :: 0 <= i < j < |K| ==>
              K[i][j] == SigVar(params) * k(times[i], times[j], Taus(params))
    ensures forall i, j :: 0 <= i < |K| && 0 <= j < |K| ==> K[i][j] == K[j][i]
  {
    seq(|times|, i requires 0 <= i < |times| =>
      seq(|times|, j requires 0 <= j < |times| => Entry(k, params, times, i, j)))
  }

  /**
    `_construct_kernel`: start from the identity and, for every pair t1 < t2,
    write the scaled kernel value into both mirrored cells.
   */
  method ConstructKernel(k: KernelFn, params: seq<real>, times: seq<int>) returns (K: array2<real>)
    requires |params| >= 1
    ensures fresh(K)
    ensures K.Length0 == |times| && K.Length1 == |times|
    ensures forall i, j :: 0 <= i < |times| && 0 <= j < |times| ==>
              K[i, j] == KernelMatrix(k, params, times)[i][j]
  {
    var sigVar := params[|params| - 1];
    var taus := params[..|params| - 1];
    var T := |times|;
    K := new real[T, T]((i, j) => if i == j then 1.0 else 0.0);
    for t1 := 0 to T
      // rows and columns before t1 hold their final value
      invariant forall i, j :: 0 <= i < T && 0 <= j < T && (i < t1 || j < t1) ==>
                  K[i, j] == Entry(k, params, times, i, j)
      // every cell with both indices at least t1 still holds the identity
      invariant forall i, j :: t1 <= i < T && t1 <= j < T ==>
                  K[i, j] == if i == j then 1.0 else 0.0
    {
      for t2 := t1 to T
        invariant forall i, j :: 0 <= i < T && 0 <= j < T && (i < t1 || j < t1) ==>
                    K[i, j] == Entry(k, params, times, i, j)
        invariant forall j :: t1 <= j < t2 ==>
                    K[t1, j] == Entry(k, params, times, t1, j) && K[j, t1] == Entry(k, params, times, j, t1)
        invariant forall i, j ::
                    t1 <= i < T && t1 <= j < T && (i == t1 ==> t2 <= j) && (j == t1 ==> t2 <= i)
                    ==> K[i, j] == if i == j then 1.0 else 0.0
      {
        if t1 != t2 {
          var el := sigVar * k(times[t1], times[t2], taus);
          K[t1, t2] := el;
          K[t2, t1] := el;
        }
      }
    }
  }

  /**
    A kernel that vanishes between distinct timepoints yields the identity
    matrix over `range(T)`, whatever the parameters.
   */
  lemma TrivialKernelIsIdentity(k: KernelFn, params: seq<real>, T: nat)
    requires |params| >= 1
    requires forall a, b, taus :: a != b ==> k(a, b, taus) == 0.0
    ensures KernelMatrix(k, params, Range(T)) == Identity(T)
  {
    var K := KernelMatrix(k, params, Range(T));
    var I := Identity(T);
    forall i | 0 <= i < T
      ensures K[i] == I[i]
    {
      assert |K[i]| == |I[i]|;
      forall j | 0 <= j < T
        ensures K[i][j] == I[i][j]
      {
        if i < j {
          assert k(i, j, Taus(params)) == 0.0;
        } else if j < i {
          assert K[i][j] == K[j][i];
          assert k(j, i, Taus(params)) == 0.0;
        }
      }
    }
  }

  /**
    The kernel over `range(T + 1)` extends the kernel over `range(T)`: its
    leading T x T block is that matrix, and its last column holds the scaled
    kernel between each observed timepoint and the new timepoint T.
   */
  lemma ExtendedKernel(k: KernelFn, params: seq<real>, T: nat)
    requires |params| >= 1
    ensures forall i, j :: 0 <= i < T && 0 <= j < T ==>
              KernelMatrix(k, params, Range(T + 1))[i][j] == KernelMatrix(k, params, Range(T))[i][j]
    ensures forall i :: 0 <= i < T ==>
              KernelMatrix(k, params, Range(T + 1))[i][T] == SigVar(params) * k(i, T, Taus(params))
  {
  }
}
