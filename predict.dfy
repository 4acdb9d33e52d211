/**
  One-step-ahead prediction (model/gp.py, `predict_next_timepoint`).

  The prediction estimates the parameters from the chain, builds the kernel
  over the T + 1 timepoints 0 .. T, and feeds its leading T x T block and its
  last column, with the data, to the GP conditional mean. Matrix inversion and
  products are floating-point linear algebra: the conditional mean is taken as
  an abstract function of the block, the column and the data.
 */
module Predict {
  import opened Wrappers
  import opened Kernel
  import opened Estimate

  /** What `fit` leaves on the model: the observed series and the sampler's chain. */
  datatype FittedState = FittedState(data: seq<real>, chain: Chain)

  /** The burn-in `optimal_params` uses by default. */
  const DefaultBurnin: nat := 100

  /** `K[:T, :T]`: the leading T x T block of a matrix. */
  function LeadingBlock(K: array2<real>, T: nat): (B: seq<seq<real>>)
    requires T <= K.Length0 && T <= K.Length1
    reads K
    ensures |B| == T
    ensures forall i :: 0 <= i < T ==> |B[i]| == T
    ensures forall i, j :: 0 <= i < T && 0 <= j < T ==> B[i][j] == K[i, j]
  {
    seq(T, i requires 0 <= i < T reads K =>
      seq(T, j requires 0 <= j < T reads K => K[i, j]))
  }

  /** `K[:T, T]`: the first T entries of column T. */
  function LastColumn(K: array2<real>, T: nat): (col: seq<real>)
    requires T < K.Length0 && T < K.Length1
    reads K
    ensures |col| == T
    ensures forall i :: 0 <= i < T ==> col[i] == K[i, T]
  {
    seq(T, i requires 0 <= i < T reads K => K[i, T])
  }

  /** The covariance between each observed timepoint i < T and the new timepoint T. */
  function CrossCovariance(k: KernelFn, params: seq<real>, T: nat): (col: seq<real>)
    requires |params| >= 1
    ensures |col| == T
    ensures forall i :: 0 <= i < T ==> col[i] == SigVar(params) * k(i, T, Taus(params))
  {
    seq(T, i requires 0 <= i < T => SigVar(params) * k(i, T, Taus(params)))
  }

  /**
    `predict_next_timepoint`: the conditional mean at timepoint T = len(data),
    computed from the kernel over the observed timepoints 0 .. T - 1 and their
    covariance with T. `None` when the parameter estimate is undefined (NaN)
    because no sample survives the default burn-in.
   */
  method PredictNextTimepoint(k: KernelFn, conditionalMean: (seq<seq<real>>, seq<real>, seq<real>) -> real,
                              state: FittedState)
    returns (prediction: Option<real>)
    requires state.chain.WellShaped()
    ensures prediction.None? <==> OptimalParams(state.chain, DefaultBurnin).None?
    ensures prediction.Some? ==>
              var params := OptimalParams(state.chain, DefaultBurnin).value;
              var T := |state.data|;
              prediction.value ==
                conditionalMean(KernelMatrix(k, params, Range(T)), CrossCovariance(k, params, T), state.data)
  {
    var estimate := OptimalParams(state.chain, DefaultBurnin);
    if estimate.None? {
      return None;
    }
    var params := estimate.value;
    var T := |state.data|;
    var K := ConstructKernel(k, params, Range(T + 1));
    var block := LeadingBlock(K, T);
    var column := LastColumn(K, T);
    SlicedKernel(K, k, params, T);
    prediction := Some(conditionalMean(block, column, state.data));
  }

  /**
    Slicing the kernel built over 0 .. T gives the kernel over the observed
    timepoints 0 .. T - 1 and their covariance with timepoint T.
   */
  lemma SlicedKernel(K: array2<real>, k: KernelFn, params: seq<real>, T: nat)
    requires |params| >= 1
    requires K.Length0 == T + 1 && K.Length1 == T + 1
    requires forall i, j :: 0 <= i < T + 1 && 0 <= j < T + 1 ==>
               K[i, j] == KernelMatrix(k, params, Range(T + 1))[i][j]
    ensures LeadingBlock(K, T) == KernelMatrix(k, params, Range(T))
    ensures LastColumn(K, T) == CrossCovariance(k, params, T)
  {
    ExtendedKernel(k, params, T);
    var block, observed := LeadingBlock(K, T), KernelMatrix(k, params, Range(T));
    forall i | 0 <= i < T
      ensures block[i] == observed[i]
    {
      assert forall j :: 0 <= j < T ==> block[i][j] == observed[i][j];
    }
  }
}
