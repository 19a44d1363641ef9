/**
 * BBAM, attention modulation: logits are damped by `exp(-gamma * sigma)`,
 * where sigma is the standard deviation of all logits (global mode) or of a
 * reflect-padded sliding window around each logit (local mode).
 */
module Bbam {
  import opened Numerics

  /** The default modulation strength of `modulate_attention`. */
  const DefaultGamma: real := 0.5

  /**
   * Why a call produces no usable array: local mode on logits of more than one
   * dimension; a negative pad (a negative window size); reflect padding of an
   * empty axis; and a zero window size on non-empty logits, where the standard
   * deviation of an empty window is NaN and so is every output.
   */
  datatype BbamError = NotOneDimensional | NegativePad | EmptyAxisPad | NaNWindow

  // ---------------------------------------------------------------- global mode

  /** `np.exp(-gamma * sigma)` with sigma the standard deviation of the logits. */
  function GlobalFactor(mx: MathFns, gamma: real, s: seq<real>): real {
    mx.exp(-gamma * Std(mx, s))
  }

  /** Global mode: `logits * factor`, with the logits flattened in storage order. */
  function GlobalGate(mx: MathFns, s: seq<real>, gamma: real): (r: seq<real>)
    ensures |r| == |s|
  {
    Scale(GlobalFactor(mx, gamma, s), s)
  }

  // ---------------------------------------------------------------- reflect padding

  /**
   * The source index `np.pad(..., mode="reflect")` copies into position `j`
   * (relative to the first logit) of the padded array: a mirror about the end
   * elements, excluding the edge, repeating with period `2 (n - 1)`. A single
   * element is repeated (NumPy's behaviour for a length-one axis).
   */
  function ReflectIndex(j: int, n: nat): (k: nat)
    requires n >= 1
    ensures k < n
  {
    if n == 1 then 0
    else
      var p := 2 * (n - 1);
      var r := j % p;
      if r < n then r else p - r
  }

  /** `np.pad(s, (pad, pad), mode="reflect")`; padding an empty axis is an error, so excluded. */
  function ReflectPad(s: seq<real>, pad: nat): (r: seq<real>)
    requires |s| >= 1 || pad == 0
    ensures |r| == |s| + 2 * pad
  {
    if |s| == 0 then []
    else seq(|s| + 2 * pad, i requires 0 <= i < |s| + 2 * pad => s[ReflectIndex(i - pad, |s|)])
  }

  // ---------------------------------------------------------------- local mode

  /** `padded[i : i + window_size]` with `pad = window_size // 2`. */
  function Window(s: seq<real>, windowSize: nat, i: nat): (w: seq<real>)
    requires windowSize >= 1 && i < |s|
    ensures |w| == windowSize
  {
    var pad := windowSize / 2;
    ReflectPad(s, pad)[i..i + windowSize]
  }

  function LocalFactor(mx: MathFns, gamma: real, window: seq<real>): real {
    mx.exp(-gamma * Std(mx, window))
  }

  /** Local mode, entry by entry: each logit damped by the spread of its own window. */
  function LocalGate(mx: MathFns, s: seq<real>, gamma: real, windowSize: nat): (r: seq<real>)
    requires windowSize >= 1
    ensures |r| == |s|
  {
    seq(|s|, i requires 0 <= i < |s| => s[i] * LocalFactor(mx, gamma, Window(s, windowSize, i)))
  }

  /** The local loop: allocates the output and fills it one logit at a time. */
  method LocalModulate(mx: MathFns, logits: array<real>, gamma: real, windowSize: nat)
    returns (modulated: array<real>)
    requires windowSize >= 1
    ensures fresh(modulated)
    ensures modulated[..] == LocalGate(mx, logits[..], gamma, windowSize)
  {
    var s := logits[..];
    ghost var spec := LocalGate(mx, s, gamma, windowSize);
    var pad := windowSize / 2;
    var padded := if |s| == 0 then [] else ReflectPad(s, pad);
    modulated := new real[logits.Length];
    for i := 0 to logits.Length
      invariant modulated[..i] == spec[..i]
    {
      var window := padded[i..i + windowSize];
      assert window == Window(s, windowSize, i);
      modulated[i] := s[i] * LocalFactor(mx, gamma, window);
      assert modulated[i] == spec[i];
      assert spec[..i + 1] == spec[..i] + [spec[i]];
      assert modulated[..i + 1] == modulated[..i] + [modulated[i]];
    }
    assert modulated[..] == modulated[..logits.Length];
  }

  /**
   * `modulate_attention`. The logits are given flattened with their number of
   * dimensions; `windowSize == None` selects the global mode.
   */
  method ModulateAttention(mx: MathFns, logits: array<real>, ndim: nat, gamma: real,
                           windowSize: Option<int>)
    returns (r: Result<array<real>, BbamError>)
    ensures windowSize.None? ==>
      r.Ok? && fresh(r.value) && r.value[..] == GlobalGate(mx, logits[..], gamma)
    ensures windowSize.Some? && ndim != 1 ==> r == Err(NotOneDimensional)
    ensures windowSize.Some? && ndim == 1 && windowSize.value < 0 ==> r == Err(NegativePad)
    ensures windowSize.Some? && ndim == 1 && windowSize.value >= 2 && logits.Length == 0 ==>
      r == Err(EmptyAxisPad)
    ensures windowSize.Some? && ndim == 1 && windowSize.value == 0 && logits.Length > 0 ==>
      r == Err(NaNWindow)
    ensures windowSize.Some? && ndim == 1 && 0 <= windowSize.value <= 1 && logits.Length == 0 ==>
      r.Ok? && fresh(r.value) && r.value.Length == 0
    ensures windowSize.Some? && ndim == 1 && windowSize.value >= 1 && logits.Length > 0 ==>
      r.Ok? && fresh(r.value) && r.value[..] == LocalGate(mx, logits[..], gamma, windowSize.value)
  {
    if windowSize.None? {
      var g := GlobalGate(mx, logits[..], gamma);
      var out := new real[|g|](i requires 0 <= i < |g| => g[i]);
      return Ok(out);
    }
    if ndim != 1 {
      return Err(NotOneDimensional);
    }
    var ws := windowSize.value;
    var pad := ws / 2;
    if pad < 0 {
      return Err(NegativePad);
    }
    if logits.Length == 0 && pad > 0 {
      return Err(EmptyAxisPad);
    }
    if logits.Length == 0 {
      var out := new real[0];
      return Ok(out);
    }
    if ws == 0 {
      return Err(NaNWindow);
    }
    var out := LocalModulate(mx, logits, gamma, ws);
    r := Ok(out);
  }

  // ---------------------------------------------------------------- lemmas

  /** For a non-negative strength the damping factor lies in (0, 1]. */
  lemma GlobalFactorRange(mx: MathFns, gamma: real, s: seq<real>)
    requires Lawful(mx) && gamma >= 0.0
    ensures 0.0 < GlobalFactor(mx, gamma, s) <= 1.0
  {
    StdNonNeg(mx, s);
    MulNonNeg(gamma, Std(mx, s));
    ExpAtMostOne(mx, -gamma * Std(mx, s));
  }

  /** The global gate rescales the spread: its standard deviation is the factor times the input's. */
  lemma GlobalGateScalesStd(mx: MathFns, s: seq<real>, gamma: real)
    requires Lawful(mx) && gamma >= 0.0
    ensures Std(mx, GlobalGate(mx, s, gamma)) == GlobalFactor(mx, gamma, s) * Std(mx, s)
    ensures Std(mx, GlobalGate(mx, s, gamma)) <= Std(mx, s)
  {
    var f := GlobalFactor(mx, gamma, s);
    GlobalFactorRange(mx, gamma, s);
    StdScale(mx, f, s);
    StdNonNeg(mx, s);
    var sd := Std(mx, s);
    MulLeOne(f, sd);
    assert f * sd <= sd;
    assert Std(mx, GlobalGate(mx, s, gamma)) == f * sd;
  }

  /** The global gate keeps the ranking of the logits, in both directions. */
  lemma GlobalGatePreservesOrder(mx: MathFns, s: seq<real>, gamma: real, i: nat, j: nat)
    requires Lawful(mx) && i < |s| && j < |s|
    ensures s[i] < s[j] <==> GlobalGate(mx, s, gamma)[i] < GlobalGate(mx, s, gamma)[j]
  {
    ScaleKeepsOrder(GlobalFactor(mx, gamma, s), s, i, j);
  }

  lemma ScaleKeepsOrder(f: real, s: seq<real>, i: nat, j: nat)
    requires f > 0.0 && i < |s| && j < |s|
    ensures s[i] < s[j] <==> Scale(f, s)[i] < Scale(f, s)[j]
  {
    MulStrictMono(f, s[i], s[j]);
  }

  /** Zero strength leaves the logits unchanged in both modes. */
  lemma ZeroGammaIsIdentity(mx: MathFns, s: seq<real>, windowSize: nat)
    requires Lawful(mx) && windowSize >= 1
    ensures GlobalGate(mx, s, 0.0) == s
    ensures LocalGate(mx, s, 0.0, windowSize) == s
  {
    assert GlobalFactor(mx, 0.0, s) == 1.0;
    var l := LocalGate(mx, s, 0.0, windowSize);
    forall i | 0 <= i < |s| ensures l[i] == s[i] {
      assert LocalFactor(mx, 0.0, Window(s, windowSize, i)) == 1.0;
    }
  }

  /** With a positive strength the global gate is the identity exactly when all logits are equal. */
  lemma GlobalGateFixedIff(mx: MathFns, s: seq<real>, gamma: real)
    requires Lawful(mx) && gamma > 0.0
    ensures GlobalFactor(mx, gamma, s) == 1.0 <==> AllEqual(s)
  {
    VarianceZeroIff(s);
    VarianceNonNeg(s);
    var v := Variance(s);
    var sigma := Std(mx, s);
    StdNonNeg(mx, s);
    if AllEqual(s) {
      SqrtZero(mx);
      assert sigma == 0.0;
    } else {
      SqrtPositive(mx, v);
      MulPos(gamma, sigma);
      ExpAtMostOne(mx, -gamma * sigma);
    }
  }

  /** The padded array carries the logits unchanged between the two pads. */
  lemma ReflectPadInterior(s: seq<real>, pad: nat, k: nat)
    requires k < |s|
    ensures ReflectPad(s, pad)[pad + k] == s[k]
  {
    var n := |s|;
    assert ReflectPad(s, pad)[pad + k] == s[ReflectIndex(k, n)];
    if n >= 2 {
      ModWithin(k, 2 * (n - 1), 0);
    }
  }

  /**
   * Within reach of the ends, the pads mirror the logits about the first and
   * the last element, the end elements themselves not repeated.
   */
  lemma ReflectPadMirror(s: seq<real>, pad: nat, d: nat)
    requires 1 <= d <= pad && d < |s|
    ensures ReflectPad(s, pad)[pad - d] == s[d]
    ensures ReflectPad(s, pad)[pad + |s| - 1 + d] == s[|s| - 1 - d]
  {
    var n := |s|;
    var p := 2 * (n - 1);
    assert ReflectPad(s, pad)[pad - d] == s[ReflectIndex(-(d as int), n)];
    assert ReflectPad(s, pad)[pad + n - 1 + d] == s[ReflectIndex(n - 1 + d, n)];
    ModWithin(-(d as int), p, -1);
    if d < n - 1 {
      ModWithin(n - 1 + d, p, 0);
    } else {
      ModWithin(n - 1 + d, p, 1);
    }
  }

  /** A single logit is repeated into both pads. */
  lemma ReflectPadSingleton(s: seq<real>, pad: nat)
    requires |s| == 1
    ensures forall i :: 0 <= i < |ReflectPad(s, pad)| ==> ReflectPad(s, pad)[i] == s[0]
  {
    var r := ReflectPad(s, pad);
    forall i | 0 <= i < |r| ensures r[i] == s[0] {
      assert r[i] == s[ReflectIndex(i - pad, 1)];
    }
  }

  /** Euclidean remainder of `j` when `j` lies in the period numbered `q`. */
  lemma ModWithin(j: int, p: int, q: int)
    requires p > 0 && q * p <= j < q * p + p
    ensures j % p == j - q * p
  {
    var t, r := j / p, j % p;
    assert j == t * p + r && 0 <= r < p;
    if t < q {
      assert (q - 1) * p == q * p - p;
      MulMonoInt(t, q - 1, p);
    } else if t > q {
      assert (q + 1) * p == q * p + p;
      MulMonoInt(q + 1, t, p);
    }
  }

  lemma MulMonoInt(a: int, b: int, p: int)
    requires a <= b && p > 0
    ensures a * p <= b * p
  {
    assert b * p - a * p == (b - a) * p;
  }

  /** Each window lies inside the padded array and has the logit it serves at its centre. */
  lemma WindowCentred(s: seq<real>, windowSize: nat, i: nat)
    requires windowSize >= 1 && i < |s|
    ensures Window(s, windowSize, i)[windowSize / 2] == s[i]
  {
    ReflectPadInterior(s, windowSize / 2, i);
  }

  /** Every window entry is a copy of some logit. */
  lemma WindowDrawsFromLogits(s: seq<real>, windowSize: nat, i: nat, k: nat)
    requires windowSize >= 1 && i < |s| && k < windowSize
    ensures exists m :: 0 <= m < |s| && Window(s, windowSize, i)[k] == s[m]
  {
    var pad := windowSize / 2;
    var m := ReflectIndex(i + k - pad, |s|);
    assert Window(s, windowSize, i)[k] == ReflectPad(s, pad)[i + k];
  }

  /** A window of one logit has no spread, so the local gate leaves every logit unchanged. */
  lemma UnitWindowIsIdentity(mx: MathFns, s: seq<real>, gamma: real)
    requires Lawful(mx)
    ensures LocalGate(mx, s, gamma, 1) == s
  {
    var l := LocalGate(mx, s, gamma, 1);
    forall i | 0 <= i < |s| ensures l[i] == s[i] {
      var w := Window(s, 1, i);
      WindowCentred(s, 1, i);
      assert AllEqual(w);
      ConstantWindowFactor(mx, gamma, w);
    }
  }

  /** Constant logits have constant windows, and the local gate leaves them unchanged. */
  lemma ConstantLogitsUnchanged(mx: MathFns, s: seq<real>, gamma: real, windowSize: nat)
    requires Lawful(mx) && windowSize >= 1 && AllEqual(s)
    ensures LocalGate(mx, s, gamma, windowSize) == s
    ensures GlobalGate(mx, s, gamma) == s
  {
    var l := LocalGate(mx, s, gamma, windowSize);
    forall i | 0 <= i < |s| ensures l[i] == s[i] {
      var w := Window(s, windowSize, i);
      forall a, b | 0 <= a < |w| && 0 <= b < |w| ensures w[a] == w[b] {
        WindowDrawsFromLogits(s, windowSize, i, a);
        WindowDrawsFromLogits(s, windowSize, i, b);
      }
      ConstantWindowFactor(mx, gamma, w);
    }
    ConstantWindowFactor(mx, gamma, s);
    assert GlobalFactor(mx, gamma, s) == 1.0;
  }

  lemma ConstantWindowFactor(mx: MathFns, gamma: real, w: seq<real>)
    requires Lawful(mx) && AllEqual(w)
    ensures LocalFactor(mx, gamma, w) == 1.0
  {
    VarianceZeroIff(w);
    SqrtZero(mx);
    assert Std(mx, w) == 0.0;
  }

  /**
   * With a non-negative strength the local gate damps every logit towards
   * zero without changing its sign.
   */
  lemma LocalGateDamps(mx: MathFns, s: seq<real>, gamma: real, windowSize: nat, i: nat)
    requires Lawful(mx) && gamma >= 0.0 && windowSize >= 1 && i < |s|
    ensures 0.0 <= s[i] ==> 0.0 <= LocalGate(mx, s, gamma, windowSize)[i] <= s[i]
    ensures s[i] <= 0.0 ==> s[i] <= LocalGate(mx, s, gamma, windowSize)[i] <= 0.0
  {
    var w := Window(s, windowSize, i);
    var f := LocalFactor(mx, gamma, w);
    StdNonNeg(mx, w);
    MulNonNeg(gamma, Std(mx, w));
    ExpAtMostOne(mx, -gamma * Std(mx, w));
    assert 0.0 < f <= 1.0;
    var x := s[i];
    assert LocalGate(mx, s, gamma, windowSize)[i] == x * f;
    if x >= 0.0 {
      MulLeOne(f, x);
      MulNonNeg(x, f);
    } else {
      MulLeOne(f, -x);
      MulNonNeg(-x, f);
    }
  }
}
