# WFGY variance gate, modelled in Dafny

This project models the numeric core of the WFGY SDK (`wfgy_sdk/`). The core has four stages and an engine:

- **BBMC (semantic residue).** `B = I - G + m·c²` between an input vector I and a ground vector G, optionally after L2-normalising both, together with its norm `‖B‖`.
- **BBPF (progression).** Builds `k` noisy copies of a state vector. Each copy's deviation is the norm of its noise. The stage returns a stability score `f_S = 1 / (1 + mean deviation)` and path weights `(max − dev) / Σ(max − dev)`.
- **BBCR (collapse-rebirth).** Has three parts:
  - the collapse test `‖B‖ ≥ Bc or f_S ≤ eps`;
  - a bounded retry loop that keeps asking a state factory for a new state until one is not flagged as collapsed;
  - the Lyapunov estimate of an error trajectory, which is the mean of the log-differences.
- **BBAM (attention modulation).** Damps logits by `exp(-gamma·σ)`. σ is the standard deviation of all logits in global mode. In local mode it is the standard deviation of a reflect-padded sliding window around each logit.
- **WFGYEngine.** `run` pulls the logits towards their mean by `exp(-bbmc_scale·boost·‖I − G‖)`. `get_engine` returns a lazily created process-wide engine.

One Dafny module per source file:

| file | module | form |
|---|---|---|
| `numerics.dfy` | `Numerics` | shared vector arithmetic: sum, mean, population variance, L2 norm; `Result`/`Option` |
| `bbmc.dfy` | `Bbmc` | functions and lemmas |
| `bbpf.dfy` | `Bbpf` | a method whose loop builds the paths and deviations, plus the functions and lemmas that specify it |
| `bbcr.dfy` | `Bbcr` | a collapse predicate, a generic retry method with a loop, and the Lyapunov functions |
| `bbam.dfy` | `Bbam` | global gate as functions; local gate as a method that fills a fresh array; a dispatcher method |
| `engine.dfy` | `Engine` | class `WfgyEngine` holding `bbmcScale`; class `EngineRegistry` holding the singleton |

Modelling conventions:

- **Numbers and vectors.** Floats are `real`. Vectors are `seq<real>`; the array filled in place by BBAM's local loop is an `array<real>`.
- **Elementary functions.** `np.exp`, `np.log` and `np.sqrt` are fields of a `MathFns` record. The proofs rely only on the laws in `Numerics.Lawful`:
  - `exp(0) = 1`;
  - `exp > 0`;
  - `exp` is strictly increasing;
  - `log` is strictly increasing on positive numbers;
  - `sqrt(x) ≥ 0` and `sqrt(x)² = x` for `x ≥ 0`.
- **Derived functions.** `np.std` is the square root of the population variance. `np.linalg.norm` of a 1-D array is the square root of the sum of squares.
- **Exceptions.** Where the source raises, the model returns `Err(...)` of a `Result`. These cases are:
  - shape mismatch;
  - `k_paths ≤ 0`;
  - negative noise scale;
  - `max_retries ≤ 0`;
  - local mode on more than one dimension;
  - negative pad;
  - padding an empty axis.
- **NaN outcomes** are explicit values:
  - `Bbpf.Weights.AllNaN` for all-equal deviations;
  - `Bbam.BbamError.NaNWindow` for a zero window on non-empty logits.

## Model

| member | source | states |
|---|---|---|
| `Bbmc.SafeNormalise` | wfgy_sdk/bbmc.py:13-16 | the normalised copy has the length of its argument |
| `Bbmc.SafeNormaliseUnit` | wfgy_sdk/bbmc.py:13-16 | a zero-norm vector is returned unchanged; any other vector becomes one of norm exactly 1 |
| `Bbmc.ComputeResidue` | wfgy_sdk/bbmc.py:19-69 | error exactly when I and G differ in length; `B_vec` present exactly when `return_vector`, with the input's length; `B_norm` is the norm of `B_vec` and is never negative |
| `Bbmc.Prepared` | wfgy_sdk/bbmc.py:57-59 | each vector is L2-normalised when `normalise` is set and passed through otherwise; its length is kept |
| `Bbmc.Bias` | wfgy_sdk/bbmc.py:61 | the scalar `m·c²` is zero exactly when `m = 0` or `c = 0`, and non-negative when `m ≥ 0` |
| `Bbmc.ResidueVector` | wfgy_sdk/bbmc.py:61 | the residue has the length of I |
| `Bbmc.ResidueComponents` | wfgy_sdk/bbmc.py:61 | without normalisation, every component is `I[k] − G[k] + m·c·c` |
| `Bbmc.BiasIsUniform` | wfgy_sdk/bbmc.py:61 | the bias is one scalar: differences between residue components equal differences of the prepared `I − G` |
| `Bbmc.EqualInputsZeroResidue` | wfgy_sdk/bbmc.py:57-62 | equal inputs with `m·c² = 0` give an all-zero `B_vec` and `B_norm = 0`, with or without normalisation |
| `Bbmc.NegationKeepsNorm` | wfgy_sdk/bbmc.py:54-62 | negating both I and G leaves `B_norm` unchanged when `m·c² = 0` |
| `Bbmc.PreparedNegated` | wfgy_sdk/bbmc.py:57-59 | the optional normalisation commutes with negation |
| `Bbpf.Noise` | wfgy_sdk/bbpf.py:58 | one path's noise has the length of its draw |
| `Bbpf.Perturbed` | wfgy_sdk/bbpf.py:59 | a perturbed path has the length of the state vector |
| `Bbpf.Deviations` | wfgy_sdk/bbpf.py:61 | one deviation per path, each non-negative |
| `Bbpf.BbpfProgression` | wfgy_sdk/bbpf.py:15-74 | `k_paths ≤ 0` fails (empty maximum); a negative scale fails; otherwise exactly `k_paths` paths, path j is `state + scale·draw_j`, `f_S` is the score of the deviations, and the weights are the normalised gaps or all-NaN when the deviations are all equal |
| `Bbpf.Gaps` | wfgy_sdk/bbpf.py:64 | one gap `max − dev` per path; every gap is non-negative and a path with the largest deviation has gap 0 |
| `Bbpf.GapsTotal` | wfgy_sdk/bbpf.py:64-65 | the gaps `max − dev` are non-negative, and their sum is zero exactly when all deviations are equal |
| `Bbpf.PathWeights` | wfgy_sdk/bbpf.py:63-65 | one weight per path |
| `Bbpf.WeightsAreDistribution` | wfgy_sdk/bbpf.py:64-65 | when the deviations are not all equal, the weights are non-negative and sum to 1 |
| `Bbpf.WeightsReverseDeviations` | wfgy_sdk/bbpf.py:64 | a smaller deviation gets at least as much weight, a strictly smaller one strictly more, and a maximal deviation gets weight 0 |
| `Bbpf.StabilityScore` | wfgy_sdk/bbpf.py:67-68 | `f_S = 1 / (1 + mean deviation)` lies in (0, 1] for non-negative deviations |
| `Bbpf.StabilityScoreDecreasing` | wfgy_sdk/bbpf.py:67-68 | a larger mean deviation gives a strictly smaller `f_S` |
| `Bbpf.ZeroNoiseIsStable` | wfgy_sdk/bbpf.py:57-68 | with zero noise, every path is the state itself, every deviation is 0 and `f_S = 1` |
| `Bbpf.DeviationsScale` | wfgy_sdk/bbpf.py:58-61 | with the draws fixed, deviations grow linearly with the noise scale |
| `Bbpf.ScaledScoreAntitone` | wfgy_sdk/bbpf.py:68 | of two rescalings of the same deviations, the larger never has the higher score |
| `Bbpf.NoiseScaleMonotone` | wfgy_sdk/bbpf.py:57-68 | with the draws fixed, `f_S` never increases as the noise scale increases |
| `Bbpf.DegenerateDeviations` | wfgy_sdk/bbpf.py:63-65 | with one path or zero noise, the deviations are all equal and the gap sum is 0, so the weights are all NaN |
| `Bbpf.WeightsWithFallback` | wfgy_sdk/bbpf.py:63-65 | the weights with a uniform fallback always form a distribution, and agree with the code's weights whenever those are defined |
| `Bbcr.CheckCollapse` | wfgy_sdk/bbcr.py:35-59 | true exactly when `residue_norm ≥ Bc` or `f_S ≤ eps`; monotone by `Bbcr.CollapseIsMonotone` |
| `Bbcr.CollapseIsMonotone` | wfgy_sdk/bbcr.py:35-59 | the collapse test stays true when the residue grows or the stability drops |
| `Bbcr.DemoScenario` | wfgy_sdk/bbcr.py:96-101 | residue 1.2 (or 1.5) with `f_S = 0.8` collapses under the defaults; the demo trajectory `[0.3, 0.21, 0.15, 0.14]` has a negative exponent |
| `Bbcr.CollapseRebirth` | wfgy_sdk/bbcr.py:62-94 | `max_retries ≤ 0` fails with no factory call. Otherwise there are between 1 and `max_retries` calls, every state before the last was flagged collapsed, and the last state is returned. That state is unflagged, or the retries are exhausted |
| `Bbcr.Collapsed` | wfgy_sdk/bbcr.py:86 | a state counts as collapsed exactly when its `_collapse` entry is present and true; a missing entry reads as not collapsed |
| `Bbcr.Clip` | wfgy_sdk/bbcr.py:31 | the clipped value is at least `1e-12`, so it is positive and its log is defined; values at or above `1e-12` pass unchanged |
| `Bbcr.LogClipped` | wfgy_sdk/bbcr.py:31 | one log value per trajectory entry |
| `Bbcr.Diff` | wfgy_sdk/bbcr.py:31 | one fewer difference than entries |
| `Bbcr.ComputeLyapunov` | wfgy_sdk/bbcr.py:15-32 | 0 for fewer than two entries; otherwise the telescoped `(log clip(last) − log clip(first)) / (n − 1)` |
| `Bbcr.DiffTelescopes` | wfgy_sdk/bbcr.py:31-32 | the successive differences sum to last minus first |
| `Bbcr.LyapunovSign` | wfgy_sdk/bbcr.py:15-32 | the exponent is positive exactly when the clipped last value exceeds the clipped first, and negative exactly when it is below |
| `Bbam.GlobalGate` | wfgy_sdk/bbam.py:38-42 | global mode keeps the length |
| `Bbam.GlobalFactor` | wfgy_sdk/bbam.py:39-40 | the shared factor `exp(−gamma·σ)`, σ the standard deviation of all logits; in (0, 1] for `gamma ≥ 0` by `Bbam.GlobalFactorRange` |
| `Bbam.GlobalFactorRange` | wfgy_sdk/bbam.py:39-40 | for `gamma ≥ 0` the shared factor lies in (0, 1] |
| `Bbam.GlobalGateScalesStd` | wfgy_sdk/bbam.py:38-42 | the output's standard deviation is the factor times the input's, so it never grows |
| `Bbam.GlobalGatePreservesOrder` | wfgy_sdk/bbam.py:42 | global mode keeps the strict order of any two logits, both ways |
| `Bbam.GlobalGateFixedIff` | wfgy_sdk/bbam.py:38-42 | for `gamma > 0` the factor is 1 exactly when all logits are equal |
| `Bbam.ZeroGammaIsIdentity` | wfgy_sdk/bbam.py:27-55 | `gamma = 0` returns the logits unchanged in both modes |
| `Bbam.ReflectIndex` | wfgy_sdk/bbam.py:49 | every padded cell copies an index inside the logits |
| `Bbam.ReflectPad` | wfgy_sdk/bbam.py:48-49 | the padded length is `n + 2·pad` |
| `Bbam.ReflectPadInterior` | wfgy_sdk/bbam.py:49 | `padded[pad + k] = logits[k]` |
| `Bbam.ReflectPadMirror` | wfgy_sdk/bbam.py:49 | for `d ≤ pad` and `d ≤ n − 1`, the pads mirror the logits about the first and last element without repeating them |
| `Bbam.ReflectPadSingleton` | wfgy_sdk/bbam.py:49 | a single logit fills both pads |
| `Bbam.Window` | wfgy_sdk/bbam.py:48-53 | every window slice lies in bounds and has exactly `window_size` entries, for odd and even sizes |
| `Bbam.WindowCentred` | wfgy_sdk/bbam.py:48-53 | window i has logit i at offset `window_size // 2` |
| `Bbam.WindowDrawsFromLogits` | wfgy_sdk/bbam.py:49-53 | every window entry is a copy of some logit |
| `Bbam.LocalFactor` | wfgy_sdk/bbam.py:54-55 | one logit's factor `exp(−gamma·σ)`, σ taken over its own window; 1 on a constant window by `Bbam.ConstantWindowFactor` |
| `Bbam.LocalGate` | wfgy_sdk/bbam.py:52-55 | local mode keeps the length |
| `Bbam.LocalModulate` | wfgy_sdk/bbam.py:50-55 | the loop fills a fresh array whose contents are the local gate of the logits: position i is `logits[i]·exp(−gamma·σ_i)` with σ_i taken over window i |
| `Bbam.ModulateAttention` | wfgy_sdk/bbam.py:14-60 | `window_size = None` gives the global gate in a fresh array. Local mode fails on input that is not 1-D, on a negative window, and on padding empty logits. A zero window on non-empty logits yields NaN. Otherwise local mode gives the local gate in a fresh array. The input is never modified |
| `Bbam.UnitWindowIsIdentity` | wfgy_sdk/bbam.py:48-55 | a window of size 1 leaves every logit unchanged |
| `Bbam.ConstantWindowFactor` | wfgy_sdk/bbam.py:54-55 | a window of equal values has factor 1 |
| `Bbam.ConstantLogitsUnchanged` | wfgy_sdk/bbam.py:38-55 | equal logits come back unchanged in both modes |
| `Bbam.LocalGateDamps` | wfgy_sdk/bbam.py:52-55 | for `gamma ≥ 0` each logit moves towards zero without changing sign |
| `Engine.BroadcastSub` | wfgy_sdk/wfgy_engine.py:71 | `I − G` is defined exactly when the lengths are equal or one side has length 1; its length is the other side's length when one side has length 1, else the common length |
| `Engine.Pull` | wfgy_sdk/wfgy_engine.py:75-76 | the pulled logits keep their length |
| `Engine.WfgyEngine.constructor` | wfgy_sdk/wfgy_engine.py:40-41 | the engine keeps the given `bbmc_scale` |
| `Engine.WfgyEngine.Run` | wfgy_sdk/wfgy_engine.py:46-77 | with either embedding absent, the logits come back unchanged. It fails exactly when the embeddings do not broadcast. Otherwise the length is kept |
| `Engine.WfgyEngine.GateScale` | wfgy_sdk/wfgy_engine.py:72 | `scale = exp(−bbmc_scale·boost·‖residue‖)`; in (0, 1] when `bbmc_scale·boost ≥ 0` by `Engine.GateScaleRange`, and non-increasing in the boost by `Engine.GateScaleAntitone` |
| `Engine.GateScaleRange` | wfgy_sdk/wfgy_engine.py:71-72 | `scale` lies in (0, 1] when `bbmc_scale·boost ≥ 0` |
| `Engine.GateScaleAntitone` | wfgy_sdk/wfgy_engine.py:60-72 | a higher boost never gives a larger scale (a stronger drop) |
| `Engine.PullPreservesMean` | wfgy_sdk/wfgy_engine.py:75-76 | the output mean equals the input mean |
| `Engine.PullScalesDeviations` | wfgy_sdk/wfgy_engine.py:75-76 | each output deviation from the mean is `scale` times the input's |
| `Engine.PullScalesVariance` | wfgy_sdk/wfgy_engine.py:75-77 | the output variance is `scale²` times the input's |
| `Engine.PullShrinksDeviations` | wfgy_sdk/wfgy_engine.py:75-76 | for a scale in (0, 1], no logit moves away from the mean or across it |
| `Engine.PullPreservesOrder` | wfgy_sdk/wfgy_engine.py:72-76 | strict order of any two logits is kept both ways, so the arg-max is unchanged |
| `Engine.PullTamesVariance` | wfgy_sdk/wfgy_engine.py:74-77 | for a scale in (0, 1], the mean is kept and the variance does not grow |
| `Engine.RunTamesVariance` | wfgy_sdk/wfgy_engine.py:64-77 | a successful run with `bbmc_scale·boost ≥ 0` keeps the mean and does not raise the variance |
| `Engine.EqualEmbeddingsLeaveLogits` | wfgy_sdk/wfgy_engine.py:71-77 | equal embeddings give `scale = 1` and return the logits unchanged |
| `Engine.RunSymmetric` | wfgy_sdk/wfgy_engine.py:71-72 | swapping the input and ground embeddings does not change the result |
| `Engine.EngineRegistry.constructor` | wfgy_sdk/wfgy_engine.py:81 | no engine exists before the first call |
| `Engine.EngineRegistry.GetEngine` | wfgy_sdk/wfgy_engine.py:84-88 | the first call creates an engine with `bbmc_scale = 1.0`; every later call returns that same object |

## Left out

- **Floating point.** Rounding, overflow and the exact values of `exp`, `log` and `sqrt` are not modelled; they obey only the laws listed above. NaN appears only in the two places modelled explicitly.
- **The mean and standard deviation of an empty array.** NumPy gives NaN for both; `Numerics.Mean`, `Numerics.Variance` and `Numerics.Std` give 0. They occur in two places, and the output is empty either way in both:
  - the mean of the logits in `run` on empty logits (wfgy_sdk/wfgy_engine.py:75-76);
  - σ in BBAM's global mode on empty logits (wfgy_sdk/bbam.py:39), where the factor becomes NaN rather than 1.
- **Random numbers.** `np.random.seed` and the global RNG state (wfgy_sdk/bbpf.py:50-51) are left out. The standard-normal draws are an input, and the noise is `noise_scale·draw`.
- **Logging.** Every `logger` call is left out.
- **Arrays of more than one dimension.**
  - BBMC compares lengths rather than shapes.
  - The 2-D matrix norm of `np.linalg.norm` is left out.
  - BBAM's global mode works on the logits flattened in storage order, which gives the same σ and the same products.
  - The engine broadcasts one-dimensional vectors only.
- `Bbam.ModulateAttention`: a zero `window_size` on non-empty logits returns `Err(NaNWindow)`. The source returns an array of NaN (the standard deviation of an empty window) without raising.
- `Bbcr.CollapseRebirth`: the factory is modelled by the sequence of states its successive calls return. The factory's own side effects are not modelled. The state dictionary is a type parameter read through a flag accessor; a missing `_collapse` key reads as not collapsed.
- **`max_retries ≤ 0`.** `state` is then never assigned and the `return` raises. The model reports this as `Err(UnboundState)` instead of requiring `max_retries ≥ 1`.
- **Copies and aliasing.** `logits.copy()` in `run` and the rebinding of locals in `compute_residue` become value semantics on sequences. The caller's vectors are never modified.
- **`run_demo` and `__main__` blocks.** Only BBCR's demo inputs are stated, as `Bbcr.DemoScenario`.
- **Files outside the five core modules** are not part of this model. These include:
  - `wfgy_sdk/__init__.py` (`enable`);
  - `wfgy_sdk/evaluator.py`, `wfgy_sdk/utils.py`, `wfgy_sdk/initializer.py`, `wfgy_sdk/reporter.py`;
  - `default_config.py`;
  - the example and driver scripts.
- **The chained orchestrator.** The pipeline that runs the four stages in sequence with `return_all` and `window_size` is not in the source. The engine does not call the four stages, so it is not modelled.

## Findings

| source | as written | input that shows it | evidently intended | confidence | as-written member | corrected member |
|---|---|---|---|---|---|---|
| wfgy_sdk/bbpf.py:63-65 | `weights / weights.sum()` divides 0 by 0 when every deviation is the same, so all weights are NaN | `k_paths = 1`, or `noise_scale = 0` with any `k_paths ≥ 1` | equal deviations give uniform weights `1/k`, so the weights stay a distribution | not executed; high | `Bbpf.DegenerateDeviations` (with `Bbpf.BbpfProgression` returning `AllNaN` in that case) | `Bbpf.WeightsWithFallback` |
