/**
 * The WFGY engine: a variance gate that pulls the logits towards their mean
 * by a factor that decays with the norm of the semantic residue between an
 * input embedding and a ground embedding; and the process-wide engine
 * returned by `get_engine`.
 */
module Engine {
  import opened Numerics

  /** The default residue weight of the engine constructor. */
  const DefaultBbmcScale: real := 1.0

  /** The default strength slider of `run`. */
  const DefaultBoost: real := 1.0

  /** `input_vec - ground_vec` raised by NumPy: the shapes do not broadcast. */
  datatype EngineError = ShapeMismatch

  /**
   * `u - v` with NumPy broadcasting of one-dimensional arrays: equal lengths
   * subtract entry by entry, and a length-one side is stretched to the other.
   */
  function BroadcastSub(u: seq<real>, v: seq<real>): (r: Option<seq<real>>)
    ensures r.Some? <==> |u| == |v| || |u| == 1 || |v| == 1
    ensures r.Some? ==> |r.value| == if |u| == 1 then |v| else |u|
  {
    if |u| == |v| then Some(Sub(u, v))
    else if |u| == 1 then Some(seq(|v|, k requires 0 <= k < |v| => u[0] - v[k]))
    else if |v| == 1 then Some(seq(|u|, k requires 0 <= k < |u| => u[k] - v[0]))
    else None
  }

  /** `mean + (logits - mean) * scale`: each logit keeps `scale` of its deviation from the mean. */
  function Pull(logits: seq<real>, scale: real): (r: seq<real>)
    ensures |r| == |logits|
  {
    var mean := Mean(logits);
    var centered := Centered(logits);
    seq(|logits|, k requires 0 <= k < |logits| => mean + centered[k] * scale)
  }

  class WfgyEngine {
    const bbmcScale: real

    constructor (bbmcScale: real)
      ensures this.bbmcScale == bbmcScale
    {
      this.bbmcScale := bbmcScale;
    }

    /** `np.exp(-bbmc_scale * boost * ||residue||)`. */
    function GateScale(mx: MathFns, residue: seq<real>, boost: real): real {
      mx.exp(-bbmcScale * boost * Norm(mx, residue))
    }

    /**
     * `run`: with either embedding absent the logits come back unchanged;
     * otherwise they are pulled towards their mean by the residue's scale.
     */
    function Run(mx: MathFns, logits: seq<real>, inputVec: Option<seq<real>>,
                 groundVec: Option<seq<real>>, boost: real): (r: Result<seq<real>, EngineError>)
      ensures inputVec.None? || groundVec.None? ==> r == Ok(logits)
      ensures r.Err? <==>
        inputVec.Some? && groundVec.Some? && BroadcastSub(inputVec.value, groundVec.value).None?
      ensures r.Ok? ==> |r.value| == |logits|
    {
      if inputVec.None? || groundVec.None? then Ok(logits)
      else match BroadcastSub(inputVec.value, groundVec.value)
        case None => Err(ShapeMismatch)
        case Some(residue) => Ok(Pull(logits, GateScale(mx, residue, boost)))
    }
  }

  /** `_ENGINE_SINGLETON` together with `get_engine`. */
  class EngineRegistry {
    var instance: WfgyEngine?

    constructor ()
      ensures instance == null
    {
      instance := null;
    }

    /** The first call creates an engine with the default weight; every later call returns that one. */
    method GetEngine() returns (e: WfgyEngine)
      modifies this
      ensures old(instance) == null ==> fresh(e) && e.bbmcScale == DefaultBbmcScale
      ensures old(instance) != null ==> e == old(instance)
      ensures instance == e
    {
      if instance == null {
        instance := new WfgyEngine(DefaultBbmcScale);
      }
      e := instance;
    }
  }

  // ---------------------------------------------------------------- lemmas

  /** When the weight times the boost is non-negative, the scale lies in (0, 1]. */
  lemma GateScaleRange(mx: MathFns, e: WfgyEngine, residue: seq<real>, boost: real)
    requires Lawful(mx) && e.bbmcScale * boost >= 0.0
    ensures 0.0 < e.GateScale(mx, residue, boost) <= 1.0
  {
    var n := Norm(mx, residue);
    NormNonNeg(mx, residue);
    NegProductNonPos(e.bbmcScale, boost, n);
    ExpAtMostOne(mx, -e.bbmcScale * boost * n);
  }

  lemma NegProductNonPos(a: real, b: real, n: real)
    requires a * b >= 0.0 && n >= 0.0
    ensures -a * b * n <= 0.0
  {
    assert -a * b * n == -(a * b * n);
    assert (a * b) * n >= 0.0;
  }

  /** A higher boost gives a stronger drop: the scale does not increase with the boost. */
  lemma GateScaleAntitone(mx: MathFns, e: WfgyEngine, residue: seq<real>, b1: real, b2: real)
    requires Lawful(mx) && e.bbmcScale >= 0.0 && b1 <= b2
    ensures e.GateScale(mx, residue, b2) <= e.GateScale(mx, residue, b1)
  {
    var n := Norm(mx, residue);
    NormNonNeg(mx, residue);
    ExponentAntitone(e.bbmcScale, n, b1, b2);
    var x1, x2 := -e.bbmcScale * b1 * n, -e.bbmcScale * b2 * n;
    assert e.GateScale(mx, residue, b1) == mx.exp(x1);
    assert e.GateScale(mx, residue, b2) == mx.exp(x2);
    if x2 < x1 {
      assert mx.exp(x2) < mx.exp(x1);
    }
  }

  lemma ExponentAntitone(a: real, n: real, b1: real, b2: real)
    requires a >= 0.0 && n >= 0.0 && b1 <= b2
    ensures -a * b2 * n <= -a * b1 * n
  {
    MulNonNeg(a, n);
    MulLeMono(a * n, b1, b2);
    assert -a * b1 * n == -(b1 * (a * n)) && -a * b2 * n == -(b2 * (a * n));
  }

  /** The pull leaves the mean of the logits where it was. */
  lemma PullPreservesMean(logits: seq<real>, scale: real)
    ensures Mean(Pull(logits, scale)) == Mean(logits)
  {
    if |logits| > 0 {
      var m := Mean(logits);
      var out := Pull(logits, scale);
      forall k | 0 <= k < |logits| ensures out[k] == Affine(logits, scale, m - scale * m)[k] {
        assert out[k] == m + (1.0 * logits[k] + -m) * scale;
      }
      assert out == Affine(logits, scale, m - scale * m);
      MeanAffine(logits, scale, m - scale * m);
    }
  }

  /** Each logit's deviation from the mean is multiplied by the scale. */
  lemma PullScalesDeviations(logits: seq<real>, scale: real)
    ensures Centered(Pull(logits, scale)) == Scale(scale, Centered(logits))
  {
    var out := Pull(logits, scale);
    PullPreservesMean(logits, scale);
    var m := Mean(logits);
    var c, d := Centered(logits), Centered(out);
    forall k | 0 <= k < |logits| ensures d[k] == Scale(scale, c)[k] {
      assert c[k] == 1.0 * logits[k] + -m;
      assert d[k] == 1.0 * out[k] + -m;
      assert out[k] == m + c[k] * scale;
    }
  }

  /** The variance of the logits is multiplied by the square of the scale. */
  lemma PullScalesVariance(logits: seq<real>, scale: real)
    ensures Variance(Pull(logits, scale)) == scale * scale * Variance(logits)
  {
    if |logits| > 0 {
      var n := |logits| as real;
      var c, d := Centered(logits), Centered(Pull(logits, scale));
      PullScalesDeviations(logits, scale);
      SumSqScale(c, scale);
      var k, x := scale * scale, SumSq(c);
      assert SumSq(d) == k * x;
      DivScaled(k, x, n);
      assert Variance(Pull(logits, scale)) == (k * x) / n;
      assert Variance(logits) == x / n;
    }
  }

  /** For a scale in (0, 1], no logit moves further from the mean, nor crosses it. */
  lemma PullShrinksDeviations(logits: seq<real>, scale: real, k: nat)
    requires 0.0 < scale <= 1.0 && k < |logits|
    ensures var c, d := Centered(logits)[k], Centered(Pull(logits, scale))[k];
      (0.0 <= c ==> 0.0 <= d <= c) && (c <= 0.0 ==> c <= d <= 0.0)
  {
    PullScalesDeviations(logits, scale);
    var c := Centered(logits)[k];
    assert Centered(Pull(logits, scale))[k] == scale * c;
    if c >= 0.0 {
      MulLeOne(scale, c);
      MulNonNeg(scale, c);
    } else {
      MulLeOne(scale, -c);
      MulNonNeg(scale, -c);
    }
  }

  /** A positive scale keeps the ranking of the logits, in both directions. */
  lemma PullPreservesOrder(logits: seq<real>, scale: real, i: nat, j: nat)
    requires scale > 0.0 && i < |logits| && j < |logits|
    ensures logits[i] < logits[j] <==> Pull(logits, scale)[i] < Pull(logits, scale)[j]
  {
    var m := Mean(logits);
    var c := Centered(logits);
    assert c[i] == 1.0 * logits[i] + -m && c[j] == 1.0 * logits[j] + -m;
    var out := Pull(logits, scale);
    assert out[j] - out[i] == (c[j] - c[i]) * scale;
    if c[i] < c[j] {
      MulPos(c[j] - c[i], scale);
    } else if c[j] < c[i] {
      MulPos(c[i] - c[j], scale);
      assert out[i] - out[j] == (c[i] - c[j]) * scale;
    }
  }

  /**
   * A run that succeeds is variance-tamed: the mean stays, the variance is
   * multiplied by the square of the scale, and for a non-negative weight
   * times boost the spread does not grow.
   */
  lemma RunTamesVariance(mx: MathFns, e: WfgyEngine, logits: seq<real>, inputVec: seq<real>,
                         groundVec: seq<real>, boost: real)
    requires Lawful(mx) && BroadcastSub(inputVec, groundVec).Some?
    requires e.bbmcScale * boost >= 0.0
    ensures var r := e.Run(mx, logits, Some(inputVec), Some(groundVec), boost);
      r.Ok? && Mean(r.value) == Mean(logits) && Variance(r.value) <= Variance(logits)
  {
    var residue := BroadcastSub(inputVec, groundVec).value;
    var scale := e.GateScale(mx, residue, boost);
    GateScaleRange(mx, e, residue, boost);
    PullTamesVariance(logits, scale);
  }

  lemma PullTamesVariance(logits: seq<real>, scale: real)
    requires 0.0 < scale <= 1.0
    ensures Mean(Pull(logits, scale)) == Mean(logits)
    ensures Variance(Pull(logits, scale)) <= Variance(logits)
  {
    PullPreservesMean(logits, scale);
    PullScalesVariance(logits, scale);
    VarianceNonNeg(logits);
    SquareAtMostOne(scale, Variance(logits));
  }

  lemma SquareAtMostOne(f: real, v: real)
    requires 0.0 < f <= 1.0 && v >= 0.0
    ensures f * f * v <= v
  {
    assert f * f <= 1.0 by { MulLeMono(f, f, 1.0); }
    MulLeMono(v, f * f, 1.0);
  }

  /** Identical embeddings have a zero residue, and the logits come back unchanged. */
  lemma EqualEmbeddingsLeaveLogits(mx: MathFns, e: WfgyEngine, logits: seq<real>, v: seq<real>,
                                   boost: real)
    requires Lawful(mx)
    ensures e.Run(mx, logits, Some(v), Some(v), boost) == Ok(logits)
  {
    var residue := BroadcastSub(v, v).value;
    assert AllZero(residue);
    NormZeroIff(mx, residue);
    assert e.GateScale(mx, residue, boost) == 1.0;
    var out := Pull(logits, 1.0);
    assert e.Run(mx, logits, Some(v), Some(v), boost) == Ok(out);
    forall k | 0 <= k < |logits| ensures out[k] == logits[k] {
      assert Centered(logits)[k] == 1.0 * logits[k] + -Mean(logits);
    }
    assert out == logits;
  }

  /** Swapping the input and the ground embedding does not change the outcome. */
  lemma RunSymmetric(mx: MathFns, e: WfgyEngine, logits: seq<real>, u: seq<real>, v: seq<real>,
                     boost: real)
    requires Lawful(mx)
    ensures e.Run(mx, logits, Some(u), Some(v), boost) == e.Run(mx, logits, Some(v), Some(u), boost)
  {
    var ruv, rvu := BroadcastSub(u, v), BroadcastSub(v, u);
    if ruv.Some? {
      assert rvu.value == Scale(-1.0, ruv.value);
      NormNegated(mx, ruv.value);
      var k := e.GateScale(mx, ruv.value, boost);
      assert e.GateScale(mx, rvu.value, boost) == k;
      assert e.Run(mx, logits, Some(u), Some(v), boost) == Ok(Pull(logits, k));
      assert e.Run(mx, logits, Some(v), Some(u), boost) == Ok(Pull(logits, k));
    }
  }
}
