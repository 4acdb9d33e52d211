/**
  The parameter-domain gate of the log-posterior (model/gp.py, `likelihood`).

  Inside the domain the source builds the kernel over `range(len(data))`,
  inverts it and adds the log-priors; that floating-point value is taken as an
  abstract `density` of the kernel matrix, the data and the parameters.
 */
module Posterior {
  import opened Kernel

  /** A log-probability: minus infinity, or a finite value. */
  datatype LogProb = NegInf | Finite(value: real)

  /** Every tau is strictly positive and the signal variance lies in (0, 1). */
  predicate InDomain(params: seq<real>)
    requires |params| >= 1
  {
    && (forall i :: 0 <= i < |params| - 1 ==> params[i] > 0.0)
    && SigVar(params) < 1.0
    && SigVar(params) > 0.0
  }

  /**
    `likelihood`: minus infinity exactly when some tau is at most 0 or the
    signal variance is outside (0, 1); otherwise the density evaluated on the
    kernel matrix over the observed timepoints 0 .. len(data) - 1.
   */
  function Likelihood(k: KernelFn, density: (seq<seq<real>>, seq<real>, seq<real>) -> real,
                      data: seq<real>, params: seq<real>): (r: LogProb)
    requires |params| >= 1
    ensures r == NegInf <==>
              || (exists i :: 0 <= i < |params| - 1 && params[i] <= 0.0)
              || params[|params| - 1] <= 0.0
              || params[|params| - 1] >= 1.0
    ensures r.Finite? ==> r.value == density(KernelMatrix(k, params, Range(|data|)), data, params)
  {
    if InDomain(params) then
      Finite(density(KernelMatrix(k, params, Range(|data|)), data, params))
    else
      NegInf
  }

  /**
    Whenever the gate lets the parameters through, the matrix handed to the
    density is a |data| x |data| symmetric matrix with unit diagonal, the
    off-diagonal entries being scaled by a signal variance in (0, 1).
   */
  lemma FiniteBranchKernel(k: KernelFn, density: (seq<seq<real>>, seq<real>, seq<real>) -> real,
                           data: seq<real>, params: seq<real>)
    requires |params| >= 1
    requires Likelihood(k, density, data, params).Finite?
    ensures 0.0 < SigVar(params) < 1.0
    ensures forall i :: 0 <= i < |Taus(params)| ==> Taus(params)[i] > 0.0
    ensures var K := KernelMatrix(k, params, Range(|data|));
            && |K| == |data|
            && (forall i :: 0 <= i < |K| ==> |K[i]| == |data|)
            && (forall i :: 0 <= i < |K| ==> K[i][i] == 1.0)
            && (forall i, j :: 0 <= i < |K| && 0 <= j < |K| ==> K[i][j] == K[j][i])
  {
  }
}
