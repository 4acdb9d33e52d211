# Gaussian-process time-series model: structural core in Dafny

This project models the structural logic of the `GaussianProcess` class in
`model/gp.py`: a Bayesian Gaussian-process regression over a scalar time
series whose kernel scale parameters (taus) and signal variance are sampled by
an ensemble MCMC sampler. Every real number is a Dafny `real`; the user's
kernel is an arbitrary function parameter `(int, int, seq<real>) -> real`.
A parameter vector holds the taus followed by the signal variance as its last
entry.

Four pieces are modelled, one module each (plus `Wrappers` for `Option`):

- `Kernel` (`kernel.dfy`): `_construct_kernel`. `ConstructKernel` is an
  imperative method over an `array2<real>`. It starts from the identity and
  fills each pair t1 < t2 of both mirrored cells with
  `sig_var * k(times[t1], times[t2], taus)`, using the same nested loops as the
  source. It is proved against the pure specification `KernelMatrix`, whose
  contract states the shape, the unit diagonal, symmetry and the
  off-diagonal formula. The loop invariants state that the rows and columns
  before t1 are final and that every cell with both indices at least t1
  still holds its identity value. Symmetry holds even for a kernel that is
  not symmetric in its time arguments, because each pair is evaluated once
  with the lower index first.
- `Posterior` (`posterior.dfy`): the parameter-domain gate of `likelihood`.
  The result is minus infinity exactly when some tau is at most 0 or the
  signal variance lies outside (0, 1). Otherwise it is a finite value, taken
  as an abstract density of the kernel over `range(len(data))`, the data and
  the parameters.
- `Estimate` (`estimate.dfy`): `optimal_params`. The chain is a
  `walkers x iterations x dim` value. The estimate slices off the burn-in,
  pools the rows walker by walker and averages each column. Its contract ties
  each component to an independent walker-by-walker, iteration-by-iteration
  total. Lemmas prove that each component lies within the range of the
  retained samples, and that a constant chain gives back that constant.
  `optimal_params` only reads the fitted state: here it is a function of
  that state, so two calls with the same burn-in return the same vector.
- `Predict` (`predict.dfy`): `predict_next_timepoint`. It builds the kernel
  over `range(T + 1)` with `ConstructKernel`, slices `K[:T, :T]` and
  `K[:T, T]`, and hands them with the data to an abstract conditional-mean
  function. Its contract states that the block is exactly the kernel over
  the observed timepoints `range(T)`. It also states that the column is
  `sig_var * k(i, T, taus)`. This is the prefix/extension property of the
  kernel (`ExtendedKernel`, `SlicedKernel`).

The state that `fit` stores on the object (`data`, `chain`) is an explicit
value, `Predict.FittedState`.

`optimal_params` raises no error when no sample survives the burn-in: NumPy's
mean over an empty `(0, dim)` pool returns a vector of NaNs. The model returns
`None` there.

## Model

| member | source | states |
|---|---|---|
| `Kernel.KernelMatrix` | model/gp.py:38-51 | The kernel over `times` is a T x T matrix with T = len(times), unit diagonal, symmetric, and `params[last] * k(times[i], times[j], params[..last])` at every i < j. |
| `Kernel.ConstructKernel` | model/gp.py:28-51 | The freshly allocated T x T array built in place from the identity equals `KernelMatrix` cell by cell. The loop invariants say which cells are final and that the unvisited off-diagonal cells still hold 0. |
| `Kernel.TrivialKernelIsIdentity` | model/gp.py:42-49 | A kernel that is 0 between distinct timepoints gives exactly the identity over `range(T)`, whatever the parameters. |
| `Kernel.ExtendedKernel` | model/gp.py:133-135 | The kernel over `range(T + 1)` has the kernel over `range(T)` as its leading T x T block. Its last column is `sig_var * k(i, T, taus)` for i < T. |
| `Posterior.Likelihood` | model/gp.py:59-74 | The result is minus infinity if and only if some tau is <= 0, or sig_var <= 0, or sig_var >= 1. Otherwise the finite value is computed from the kernel over `range(len(data))`. |
| `Posterior.FiniteBranchKernel` | model/gp.py:62-63 | On the finite branch every tau is positive, sig_var lies in (0, 1), and the kernel handed on is a len(data) x len(data) symmetric matrix with unit diagonal. |
| `Estimate.Drop` | model/gp.py:120 | Python's slice `xs[burnin:]`: the iterations from `burnin` on, in order, and nothing when `burnin` is past the end. |
| `Estimate.Retained` | model/gp.py:120 | `chain[:, burnin:, :]`: one entry per walker, each that walker's iterations from `burnin` on. |
| `Estimate.FlattenRows` | model/gp.py:120 | `reshape(-1, dim)` keeps exactly the retained sample vectors: every row of every walker occurs in the pool, and every pooled row is some walker's row. |
| `Estimate.ColumnMeans` | model/gp.py:120 | The column mean over the pooled rows has one entry per parameter. Each entry times the number of rows equals that column's sum. |
| `Estimate.OptimalParams` | model/gp.py:116-120 | The result is undefined (NaN, `None`) exactly when there is no walker or burnin >= iterations. Otherwise it has one entry per parameter, and entry p is the mean of `samples[w][i][p]` over all walkers w and iterations i >= burnin: their total divided by the pool size, so pool-size copies of it add up to that total. |
| `Estimate.PoolSizeZero` | model/gp.py:120 | The pool `walkers * (iterations - burnin)` is empty exactly when there is no walker or no iteration survives the burn-in. |
| `Estimate.PooledShape` | model/gp.py:120 | `reshape(-1, dim)` of `chain[:, burnin:, :]` has walkers * (iterations - burnin) rows, each of length dim. |
| `Estimate.PooledTotal` | model/gp.py:120 | Summing column p of the pooled rows gives the same total as summing walker by walker, iteration by iteration. |
| `Estimate.MeanWithinSampleRange` | model/gp.py:120 | Each component of the estimate lies between any lower and upper bound of the retained samples of that parameter, in particular between their minimum and maximum. |
| `Estimate.ConstantChainMean` | model/gp.py:116-120 | If every retained sample of parameter p equals c, the estimate of p is exactly c. |
| `Predict.LeadingBlock` | model/gp.py:135 | `K[:T, :T]`: a T x T matrix whose cell (i, j) is the array's cell (i, j). |
| `Predict.LastColumn` | model/gp.py:135 | `K[:T, T]`: T entries, entry i being the array's cell (i, T). |
| `Predict.SlicedKernel` | model/gp.py:133-135 | Slicing the array built over `range(T + 1)` gives `K[:T, :T]` equal to the kernel over `range(T)` and `K[:T, T]` equal to the cross-covariance column. |
| `Predict.PredictNextTimepoint` | model/gp.py:122-135 | The prediction is undefined exactly when the default-burn-in estimate is undefined. Otherwise it is the conditional mean evaluated on the kernel over the observed timepoints, the column `sig_var * k(i, T, taus)` and the data. |

## Left out

- `fit` (model/gp.py:77-114): the random initial walker positions (`np.random.lognormal`, `np.random.beta`), the call into the external `emcee` sampler and the storing of its results. The stored data and chain are an explicit `FittedState` value instead.
- `__init__` (model/gp.py:5-26): the prior hyperparameters matter only to the numeric log-density, which is abstract; the kernel is passed directly.
- Posterior.Likelihood: the finite value (the Gaussian log-likelihood with inverse kernel and the unnormalised LogNormal and Beta log-priors, model/gp.py:64-72) is an abstract function of the kernel matrix, the data and the parameters, because it is floating-point linear algebra and logarithms. Inside the domain the model always returns a finite value: a singular kernel (for example a constant kernel 2.0 with sig_var 0.5 and two or more data points gives an all-ones matrix) and the `LinAlgError` that `np.linalg.inv` raises on it at model/gp.py:64 are not modelled.
- Predict.PredictNextTimepoint: the matrix inversion and products of model/gp.py:135 are an abstract conditional-mean function, so a singular kernel block and its `LinAlgError` are not modelled. When the estimate is all NaN the model returns `None` rather than following NaNs through the kernel and the inversion.
- Floating point: values are exact reals, so non-finite parameters and rounding in the mean are not modelled. At model/gp.py:62 the gate rejects a NaN or `-inf` tau and a NaN or infinite `sig_var`, but a `+inf` tau passes `taus > 0` and takes the finite branch (for example `params = [inf, 0.5]`).
- Estimate.OptimalParams: the burn-in is a natural number; Python's negative slice bounds are not modelled. The chain has at least one parameter, as every chain the sampler produces does (num_taus + 1 >= 1); `reshape(-1, 0)` would raise in NumPy.
- Kernel.ConstructKernel and Posterior.Likelihood require a non-empty parameter vector: `params[-1]` raises `IndexError` on an empty one, and the sampler always passes num_taus + 1 >= 1 parameters.
- Timepoints are integers, as both callers pass `range(...)`; `_construct_kernel` itself would accept any sequence.
