/**
 * BBPF, the progression formula: k perturbed copies of a state vector, the
 * stability score `f_S = 1 / (1 + mean deviation)` and per-path weights that
 * favour the paths that deviated least.
 *
 * The Gaussian draws are an input: `draws[j]` is the standard-normal sample
 * behind path j, so the noise of that path is `noise_scale * draws[j]`, as
 * `np.random.normal(0.0, noise_scale)` computes it.
 */
module Bbpf {
  import opened Numerics

  /** The defaults of `bbpf_progression`. */
  const DefaultKPaths: int := 3
  const DefaultNoiseScale: real := 0.01

  datatype BbpfError =
    | NegativeNoiseScale  // NumPy rejects a negative standard deviation at the first draw
    | EmptyReduction      // `deviations.max()` of zero paths

  /**
   * The weight vector. When every deviation is the same, `weights / weights.sum()`
   * divides zero by zero and NumPy yields `count` NaNs.
   */
  datatype Weights = Finite(values: seq<real>) | AllNaN(count: nat)

  datatype Progression = Progression(paths: seq<seq<real>>, weights: Weights, fS: real)

  /** The noise added to one path. */
  function Noise(noiseScale: real, draw: seq<real>): (n: seq<real>)
    ensures |n| == |draw|
  {
    Scale(noiseScale, draw)
  }

  /** `state_vec + noise`: one perturbed path. */
  function Perturbed(stateVec: seq<real>, noiseScale: real, draw: seq<real>): (p: seq<real>)
    requires |draw| == |stateVec|
    ensures |p| == |stateVec|
  {
    Add(stateVec, Noise(noiseScale, draw))
  }

  /** The L2 norm of each path's noise. */
  function Deviations(mx: MathFns, noiseScale: real, draws: seq<seq<real>>): (d: seq<real>)
    ensures |d| == |draws|
    ensures Lawful(mx) ==> forall j :: 0 <= j < |d| ==> d[j] >= 0.0
  {
    seq(|draws|, j requires 0 <= j < |draws| => Norm(mx, Noise(noiseScale, draws[j])))
  }

  predicate NonNegative(s: seq<real>) {
    forall j :: 0 <= j < |s| ==> s[j] >= 0.0
  }

  /** `f_S = 1 / (1 + mean(deviations))`. */
  function StabilityScore(devs: seq<real>): (r: real)
    requires NonNegative(devs)
    ensures 0.0 < r <= 1.0
  {
    MeanNonNeg(devs);
    InverseRange(Mean(devs));
    1.0 / (1.0 + Mean(devs))
  }

  /** `deviations.max() - deviations`. */
  function Gaps(devs: seq<real>): (g: seq<real>)
    requires |devs| >= 1
    ensures |g| == |devs|
    ensures NonNegative(g)
    ensures exists j :: 0 <= j < |g| && g[j] == 0.0
  {
    MaxIsLeastUpperBound(devs);
    var top := Max(devs);
    var g := seq(|devs|, j requires 0 <= j < |devs| => top - devs[j]);
    assert forall j :: 0 <= j < |devs| ==> g[j] == top - devs[j];
    g
  }

  /** `weights / weights.sum()`, defined when the deviations are not all equal. */
  function PathWeights(devs: seq<real>): (w: seq<real>)
    requires |devs| >= 1 && !AllEqual(devs)
    ensures |w| == |devs|
  {
    GapsTotal(devs);
    var g := Gaps(devs);
    var total := Sum(g);
    seq(|devs|, j requires 0 <= j < |devs| => g[j] / total)
  }

  /** `bbpf_progression`, with the RNG draws supplied as `draws`. */
  method BbpfProgression(mx: MathFns, stateVec: seq<real>, kPaths: int, noiseScale: real,
                         draws: seq<seq<real>>) returns (r: Result<Progression, BbpfError>)
    requires Lawful(mx)
    requires kPaths <= |draws|
    requires forall j :: 0 <= j < |draws| ==> |draws[j]| == |stateVec|
    ensures kPaths <= 0 ==> r == Err(EmptyReduction)
    ensures kPaths >= 1 && noiseScale < 0.0 ==> r == Err(NegativeNoiseScale)
    ensures kPaths >= 1 && noiseScale >= 0.0 ==> r.Ok?
    ensures r.Ok? ==>
      var devs := Deviations(mx, noiseScale, draws[..kPaths]);
      && |r.value.paths| == kPaths
      && (forall j :: 0 <= j < kPaths ==> r.value.paths[j] == Perturbed(stateVec, noiseScale, draws[j]))
      && r.value.fS == StabilityScore(devs)
      && r.value.weights == (if AllEqual(devs) then AllNaN(kPaths) else Finite(PathWeights(devs)))
  {
    var n: nat := if kPaths > 0 then kPaths else 0;
    var paths: seq<seq<real>> := [];
    var deviations: seq<real> := [];
    var i := 0;
    while i < n
      invariant 0 <= i <= n
      invariant noiseScale < 0.0 ==> i == 0
      invariant |paths| == i && |deviations| == i
      invariant forall j :: 0 <= j < i ==> paths[j] == Perturbed(stateVec, noiseScale, draws[j])
      invariant forall j :: 0 <= j < i ==> deviations[j] == Norm(mx, Noise(noiseScale, draws[j]))
    {
      if noiseScale < 0.0 {
        return Err(NegativeNoiseScale);
      }
      var noise := Noise(noiseScale, draws[i]);
      var perturbed := Add(stateVec, noise);
      paths := paths + [perturbed];
      deviations := deviations + [Norm(mx, noise)];
      i := i + 1;
    }
    if n == 0 {
      return Err(EmptyReduction);
    }
    assert n == kPaths;
    DeviationsPrefix(mx, noiseScale, draws, deviations);
    GapsTotal(deviations);
    var weights := if Sum(Gaps(deviations)) == 0.0 then AllNaN(n) else Finite(PathWeights(deviations));
    assert weights == (if AllEqual(deviations) then AllNaN(kPaths) else Finite(PathWeights(deviations)));
    var fS := StabilityScore(deviations);
    r := Ok(Progression(paths, weights, fS));
  }

  // ---------------------------------------------------------------- lemmas

  lemma DeviationsPrefix(mx: MathFns, noiseScale: real, draws: seq<seq<real>>, d: seq<real>)
    requires |d| <= |draws|
    requires forall j :: 0 <= j < |d| ==> d[j] == Norm(mx, Noise(noiseScale, draws[j]))
    ensures d == Deviations(mx, noiseScale, draws[..|d|])
  {
  }

  /** The gaps are non-negative; they sum to zero exactly when all deviations are equal. */
  lemma GapsTotal(devs: seq<real>)
    requires |devs| >= 1
    ensures NonNegative(Gaps(devs))
    ensures Sum(Gaps(devs)) >= 0.0
    ensures Sum(Gaps(devs)) == 0.0 <==> AllEqual(devs)
  {
    var g := Gaps(devs);
    MaxIsLeastUpperBound(devs);
    SumNonNeg(g);
    if AllZero(g) {
      forall i, j | 0 <= i < |devs| && 0 <= j < |devs| ensures devs[i] == devs[j] {
        assert g[i] == 0.0 && g[j] == 0.0;
      }
    }
    if AllEqual(devs) {
      var k :| 0 <= k < |devs| && devs[k] == Max(devs);
      forall i | 0 <= i < |devs| ensures g[i] == 0.0 {
        assert devs[i] == devs[k];
      }
    }
  }

  /** Each deviation is a norm, so `f_S` lies in (0, 1]. */
  lemma InverseRange(x: real)
    requires x >= 0.0
    ensures 0.0 < 1.0 / (1.0 + x) <= 1.0
  {
  }

  lemma InverseAntitone(x: real, y: real)
    requires 0.0 <= x <= y
    ensures 1.0 / (1.0 + x) >= 1.0 / (1.0 + y)
    ensures x < y ==> 1.0 / (1.0 + x) > 1.0 / (1.0 + y)
  {
  }

  /** A larger mean deviation gives a strictly smaller `f_S`. */
  lemma StabilityScoreDecreasing(d1: seq<real>, d2: seq<real>)
    requires NonNegative(d1) && NonNegative(d2)
    requires Mean(d1) < Mean(d2)
    ensures StabilityScore(d1) > StabilityScore(d2)
  {
    MeanNonNeg(d1);
    InverseAntitone(Mean(d1), Mean(d2));
  }

  /** Without noise every path is the state itself, every deviation is 0 and `f_S = 1`. */
  lemma ZeroNoiseIsStable(mx: MathFns, stateVec: seq<real>, draws: seq<seq<real>>)
    requires Lawful(mx)
    requires forall j :: 0 <= j < |draws| ==> |draws[j]| == |stateVec|
    ensures forall j :: 0 <= j < |draws| ==> Perturbed(stateVec, 0.0, draws[j]) == stateVec
    ensures AllZero(Deviations(mx, 0.0, draws))
    ensures StabilityScore(Deviations(mx, 0.0, draws)) == 1.0
  {
    var d := Deviations(mx, 0.0, draws);
    forall j | 0 <= j < |draws| ensures Perturbed(stateVec, 0.0, draws[j]) == stateVec && d[j] == 0.0 {
      var z := Noise(0.0, draws[j]);
      assert AllZero(z);
      NormZeroIff(mx, z);
    }
    SumNonNeg(d);
  }

  /**
   * With the draws held fixed, a larger `noise_scale` never raises `f_S`: each
   * deviation grows linearly with the scale.
   */
  lemma NoiseScaleMonotone(mx: MathFns, draws: seq<seq<real>>, s1: real, s2: real)
    requires Lawful(mx) && 0.0 <= s1 <= s2
    ensures StabilityScore(Deviations(mx, s1, draws)) >= StabilityScore(Deviations(mx, s2, draws))
  {
    var base := Deviations(mx, 1.0, draws);
    DeviationsScale(mx, draws, s1);
    DeviationsScale(mx, draws, s2);
    ScaledScoreAntitone(base, s1, s2);
  }

  /** Of two rescalings of the same deviations, the larger has the lower score. */
  lemma ScaledScoreAntitone(base: seq<real>, s1: real, s2: real)
    requires NonNegative(base) && 0.0 <= s1 <= s2
    ensures NonNegative(Scale(s1, base)) && NonNegative(Scale(s2, base))
    ensures StabilityScore(Scale(s1, base)) >= StabilityScore(Scale(s2, base))
  {
    forall j | 0 <= j < |base| ensures Scale(s1, base)[j] >= 0.0 && Scale(s2, base)[j] >= 0.0 {
      MulNonNeg(s1, base[j]);
      MulNonNeg(s2, base[j]);
    }
    if |base| > 0 {
      MeanNonNeg(base);
      var m := Mean(base);
      assert Scale(s1, base) == Affine(base, s1, 0.0);
      assert Scale(s2, base) == Affine(base, s2, 0.0);
      MeanAffine(base, s1, 0.0);
      MeanAffine(base, s2, 0.0);
      MulLeMono(m, s1, s2);
      MulNonNeg(s1, m);
      InverseAntitone(s1 * m, s2 * m);
      assert StabilityScore(Scale(s1, base)) == 1.0 / (1.0 + s1 * m);
      assert StabilityScore(Scale(s2, base)) == 1.0 / (1.0 + s2 * m);
    }
  }

  lemma DeviationsScale(mx: MathFns, draws: seq<seq<real>>, s: real)
    requires Lawful(mx) && s >= 0.0
    ensures Deviations(mx, s, draws) == Scale(s, Deviations(mx, 1.0, draws))
  {
    var d, b := Deviations(mx, s, draws), Deviations(mx, 1.0, draws);
    forall j | 0 <= j < |draws| ensures d[j] == Scale(s, b)[j] {
      var z := draws[j];
      assert Noise(1.0, z) == z;
      assert Noise(s, z) == Scale(s, z);
      NormScale(mx, s, z);
    }
  }

  /** The weights are non-negative and sum to 1 when the deviations are not all equal. */
  lemma WeightsAreDistribution(devs: seq<real>)
    requires |devs| >= 1 && !AllEqual(devs)
    ensures NonNegative(PathWeights(devs))
    ensures Sum(PathWeights(devs)) == 1.0
  {
    GapsTotal(devs);
    var g := Gaps(devs);
    var t := Sum(g);
    var w := PathWeights(devs);
    forall j | 0 <= j < |w| ensures w[j] == Scale(1.0 / t, g)[j] && w[j] >= 0.0 {
      DivAsScale(g[j], t);
    }
    assert w == Scale(1.0 / t, g);
    SumScale(g, 1.0 / t);
    DivSelf(t);
  }

  lemma DivAsScale(x: real, t: real)
    requires t > 0.0 && x >= 0.0
    ensures x / t == (1.0 / t) * x && x / t >= 0.0
  {
  }

  lemma DivSelf(t: real)
    requires t != 0.0
    ensures (1.0 / t) * t == 1.0
  {
  }

  lemma DivMono(x: real, y: real, t: real)
    requires t > 0.0 && x <= y
    ensures x / t <= y / t
    ensures x < y ==> x / t < y / t
  {
  }

  /**
   * Weights reverse the order of deviations, and a path with the largest
   * deviation gets weight 0.
   */
  lemma WeightsReverseDeviations(devs: seq<real>, i: int, j: int)
    requires |devs| >= 1 && !AllEqual(devs)
    requires 0 <= i < |devs| && 0 <= j < |devs|
    ensures devs[i] <= devs[j] ==> PathWeights(devs)[i] >= PathWeights(devs)[j]
    ensures devs[i] < devs[j] ==> PathWeights(devs)[i] > PathWeights(devs)[j]
    ensures devs[i] == Max(devs) ==> PathWeights(devs)[i] == 0.0
  {
    GapsTotal(devs);
    var g := Gaps(devs);
    var t := Sum(g);
    assert t > 0.0;
    var w := PathWeights(devs);
    assert w[i] == g[i] / t && w[j] == g[j] / t;
    if devs[i] <= devs[j] {
      assert g[j] <= g[i];
      DivMono(g[j], g[i], t);
    }
    if devs[i] == Max(devs) {
      assert g[i] == 0.0;
    }
  }

  /**
   * Degenerate perturbation sets: with one path, or with no noise, every
   * deviation is the same, so `bbpf_progression` divides zero by zero and
   * its weights are all NaN.
   */
  lemma DegenerateDeviations(mx: MathFns, draws: seq<seq<real>>, noiseScale: real)
    requires Lawful(mx) && |draws| >= 1
    requires |draws| == 1 || noiseScale == 0.0
    ensures AllEqual(Deviations(mx, noiseScale, draws))
    ensures Sum(Gaps(Deviations(mx, noiseScale, draws))) == 0.0
  {
    var d := Deviations(mx, noiseScale, draws);
    if noiseScale == 0.0 {
      forall j | 0 <= j < |draws| ensures d[j] == 0.0 {
        var z := Noise(0.0, draws[j]);
        assert AllZero(z);
        NormZeroIff(mx, z);
      }
    }
    GapsTotal(d);
  }

  /**
   * The weights with the uniform fallback for equal deviations: always a
   * probability distribution, and the code's weights whenever those are defined.
   */
  function WeightsWithFallback(devs: seq<real>): (w: seq<real>)
    requires |devs| >= 1
    ensures |w| == |devs|
    ensures NonNegative(w) && Sum(w) == 1.0
    ensures !AllEqual(devs) ==> w == PathWeights(devs)
    ensures AllEqual(devs) ==> forall j :: 0 <= j < |w| ==> w[j] == 1.0 / (|devs| as real)
  {
    if AllEqual(devs) then
      var n := |devs| as real;
      var u := Affine(devs, 0.0, 1.0 / n);
      SumAffine(devs, 0.0, 1.0 / n);
      assert Sum(u) == n * (1.0 / n);
      DivSelf(n);
      u
    else
      WeightsAreDistribution(devs);
      PathWeights(devs)
  }
}
