/**
 * Vector arithmetic shared by the variance-gate modules: sums, means, the
 * population variance that `np.std` uses, the L2 norm, and the elementary
 * functions exp, log and sqrt, which the model keeps abstract.
 */
module Numerics {

  /** The outcome of an operation that the source can fail with an exception. */
  datatype Result<+T, +E> = Ok(value: T) | Err(error: E)

  /** A value that may be absent, as a Python `None` or a missing dict key. */
  datatype Option<+T> = None | Some(value: T)

  /**
   * The elementary functions NumPy supplies (`np.exp`, `np.log`, `np.sqrt`).
   * Their floating-point values are not modelled; `Lawful` lists the only
   * facts the proofs rely on.
   */
  datatype MathFns = MathFns(exp: real -> real, log: real -> real, sqrt: real -> real)

  ghost predicate Lawful(mx: MathFns) {
    && mx.exp(0.0) == 1.0
    && (forall x :: mx.exp(x) > 0.0)
    && (forall x, y :: x < y ==> mx.exp(x) < mx.exp(y))
    && (forall x, y :: 0.0 < x < y ==> mx.log(x) < mx.log(y))
    && (forall x :: 0.0 <= x ==> 0.0 <= mx.sqrt(x) && mx.sqrt(x) * mx.sqrt(x) == x)
  }

  // ---------------------------------------------------------------- sums

  function Sum(s: seq<real>): real {
    if |s| == 0 then 0.0 else s[0] + Sum(s[1..])
  }

  /** The arithmetic mean; NumPy's mean of an empty array is NaN, here 0. */
  function Mean(s: seq<real>): real {
    if |s| == 0 then 0.0 else Sum(s) / (|s| as real)
  }

  function SumSq(s: seq<real>): (r: real)
    ensures r >= 0.0
  {
    if |s| == 0 then 0.0 else s[0] * s[0] + SumSq(s[1..])
  }

  /** Elementwise `a * s[i] + b`: a scalar rescale followed by a uniform shift. */
  function Affine(s: seq<real>, a: real, b: real): (r: seq<real>)
    ensures |r| == |s|
  {
    seq(|s|, i requires 0 <= i < |s| => a * s[i] + b)
  }

  function Scale(a: real, s: seq<real>): (r: seq<real>)
    ensures |r| == |s|
  {
    seq(|s|, i requires 0 <= i < |s| => a * s[i])
  }

  function Add(u: seq<real>, v: seq<real>): (r: seq<real>)
    requires |u| == |v|
    ensures |r| == |u|
  {
    seq(|u|, i requires 0 <= i < |u| => u[i] + v[i])
  }

  function Sub(u: seq<real>, v: seq<real>): (r: seq<real>)
    requires |u| == |v|
    ensures |r| == |u|
  {
    seq(|u|, i requires 0 <= i < |u| => u[i] - v[i])
  }

  /** `v - mean(v)`, elementwise. */
  function Centered(s: seq<real>): (r: seq<real>)
    ensures |r| == |s|
  {
    Affine(s, 1.0, -Mean(s))
  }

  /** Population variance, the `ddof = 0` variance behind `np.std`. */
  function Variance(s: seq<real>): real {
    if |s| == 0 then 0.0 else SumSq(Centered(s)) / (|s| as real)
  }

  function Std(mx: MathFns, s: seq<real>): real {
    mx.sqrt(Variance(s))
  }

  /** The Euclidean norm, `np.linalg.norm(v, ord=2)` of a 1-D array. */
  function Norm(mx: MathFns, v: seq<real>): real {
    mx.sqrt(SumSq(v))
  }

  predicate AllZero(s: seq<real>) {
    forall i :: 0 <= i < |s| ==> s[i] == 0.0
  }

  predicate AllEqual(s: seq<real>) {
    forall i, j :: 0 <= i < |s| && 0 <= j < |s| ==> s[i] == s[j]
  }

  function Max(s: seq<real>): (r: real)
    requires |s| >= 1
  {
    if |s| == 1 then s[0]
    else var m := Max(s[1..]); if s[0] >= m then s[0] else m
  }

  // ---------------------------------------------------------------- lemmas

  lemma {:induction false} MaxIsLeastUpperBound(s: seq<real>)
    requires |s| >= 1
    ensures forall i :: 0 <= i < |s| ==> s[i] <= Max(s)
    ensures exists i :: 0 <= i < |s| && s[i] == Max(s)
  {
    if |s| > 1 {
      MaxIsLeastUpperBound(s[1..]);
      var k :| 0 <= k < |s[1..]| && s[1..][k] == Max(s[1..]);
      assert s[k + 1] == Max(s[1..]);
      forall i | 1 <= i < |s| ensures s[i] <= Max(s) {
        assert s[i] == s[1..][i - 1];
      }
      if s[0] >= Max(s[1..]) {
        assert s[0] == Max(s);
      } else {
        assert s[k + 1] == Max(s);
      }
    } else {
      assert s[0] == Max(s);
    }
  }

  lemma {:induction false} SumAffine(s: seq<real>, a: real, b: real)
    ensures Sum(Affine(s, a, b)) == a * Sum(s) + (|s| as real) * b
  {
    if |s| > 0 {
      assert Affine(s, a, b)[1..] == Affine(s[1..], a, b);
      SumAffine(s[1..], a, b);
      calc {
        Sum(Affine(s, a, b));
        (a * s[0] + b) + Sum(Affine(s[1..], a, b));
        (a * s[0] + b) + (a * Sum(s[1..]) + (|s[1..]| as real) * b);
        a * (s[0] + Sum(s[1..])) + (|s| as real) * b;
      }
    }
  }

  lemma ScaleTail(a: real, s: seq<real>)
    requires |s| > 0
    ensures Scale(a, s)[1..] == Scale(a, s[1..])
  {
    var t, u := Scale(a, s)[1..], Scale(a, s[1..]);
    forall i | 0 <= i < |t| ensures t[i] == u[i] {
      assert t[i] == a * s[i + 1];
      assert u[i] == a * s[i + 1];
    }
  }

  lemma SumScale(s: seq<real>, a: real)
    ensures Sum(Scale(a, s)) == a * Sum(s)
  {
    assert Scale(a, s) == Affine(s, a, 0.0);
    SumAffine(s, a, 0.0);
  }

  lemma {:induction false} SumNonNeg(s: seq<real>)
    requires forall i :: 0 <= i < |s| ==> s[i] >= 0.0
    ensures Sum(s) >= 0.0
    ensures Sum(s) == 0.0 <==> AllZero(s)
  {
    if |s| > 0 {
      SumNonNeg(s[1..]);
      assert AllZero(s[1..]) && s[0] == 0.0 ==> AllZero(s) by {
        if AllZero(s[1..]) && s[0] == 0.0 {
          forall i | 1 <= i < |s| ensures s[i] == 0.0 { assert s[i] == s[1..][i - 1]; }
        }
      }
    }
  }

  lemma {:induction false} SumSqZeroIff(s: seq<real>)
    ensures SumSq(s) == 0.0 <==> AllZero(s)
  {
    if |s| > 0 {
      SumSqZeroIff(s[1..]);
      if SumSq(s) == 0.0 {
        assert s[0] * s[0] == 0.0;
        SquareZero(s[0]);
        forall i | 1 <= i < |s| ensures s[i] == 0.0 { assert s[i] == s[1..][i - 1]; }
      }
      if AllZero(s) {
        assert s[0] == 0.0;
        assert AllZero(s[1..]) by {
          forall i | 0 <= i < |s[1..]| ensures s[1..][i] == 0.0 { assert s[1..][i] == s[i + 1]; }
        }
      }
    }
  }

  lemma {:induction false} SumSqScale(s: seq<real>, a: real)
    ensures SumSq(Scale(a, s)) == a * a * SumSq(s)
  {
    if |s| > 0 {
      var t := Scale(a, s);
      ScaleTail(a, s);
      SumSqScale(s[1..], a);
      SquareProduct(a, s[0]);
      var k, x, y := a * a, s[0] * s[0], SumSq(s[1..]);
      assert t[0] * t[0] == k * x;
      assert SumSq(t[1..]) == k * y;
      Distrib(k, x, y);
    }
  }

  // Small facts of real arithmetic, kept apart so that each proof obligation
  // holds at most one non-linear step.

  lemma MulPos(a: real, b: real)
    requires a > 0.0 && b > 0.0
    ensures a * b > 0.0
  {
  }

  lemma MulZeroIff(a: real, b: real)
    ensures a * b == 0.0 <==> a == 0.0 || b == 0.0
  {
    if a != 0.0 && b != 0.0 {
      var pa, pb := if a > 0.0 then a else -a, if b > 0.0 then b else -b;
      MulPos(pa, pb);
      assert pa * pb == a * b || pa * pb == -(a * b);
    }
  }

  lemma MulNonNeg(a: real, b: real)
    requires a >= 0.0 && b >= 0.0
    ensures a * b >= 0.0
  {
  }

  lemma MulLeMono(m: real, x: real, y: real)
    requires m >= 0.0 && x <= y
    ensures x * m <= y * m
  {
    assert y * m - x * m == (y - x) * m;
  }

  lemma MulLeOne(f: real, x: real)
    requires 0.0 <= f <= 1.0 && x >= 0.0
    ensures f * x <= x
  {
  }

  lemma MulStrictMono(f: real, x: real, y: real)
    requires f > 0.0
    ensures x < y <==> f * x < f * y
  {
    if x < y {
      assert f * y - f * x == f * (y - x);
      MulPos(f, y - x);
    } else {
      assert f * x - f * y == f * (x - y);
      if x > y { MulPos(f, x - y); }
    }
  }

  lemma SquareStrict(p: real, q: real)
    requires 0.0 <= p < q
    ensures p * p < q * q
  {
    MulPos(q - p, q + p);
    assert q * q - p * p == (q - p) * (q + p);
  }

  lemma SquareZero(x: real)
    requires x * x == 0.0
    ensures x == 0.0
  {
    if x > 0.0 { SquareStrict(0.0, x); } else if x < 0.0 { SquareStrict(0.0, -x); }
  }

  lemma SquareProduct(a: real, b: real)
    ensures (a * b) * (a * b) == a * a * (b * b)
  {
  }

  lemma Distrib(k: real, x: real, y: real)
    ensures k * x + k * y == k * (x + y)
  {
  }

  lemma DivScaled(k: real, x: real, n: real)
    requires n != 0.0
    ensures (k * x) / n == k * (x / n)
  {
  }

  /** A non-negative square root is unique. */
  lemma SqrtUnique(p: real, q: real)
    requires p >= 0.0 && q >= 0.0 && p * p == q * q
    ensures p == q
  {
    if p < q {
      SquareStrict(p, q);
    } else if q < p {
      SquareStrict(q, p);
    }
  }

  /** exp of a non-positive argument is at most one, and below one when the argument is negative. */
  lemma ExpAtMostOne(mx: MathFns, x: real)
    requires Lawful(mx) && x <= 0.0
    ensures mx.exp(x) <= 1.0
    ensures x < 0.0 ==> mx.exp(x) < 1.0
  {
    if x < 0.0 {
      assert mx.exp(x) < mx.exp(0.0);
    }
  }

  lemma SqrtZero(mx: MathFns)
    requires Lawful(mx)
    ensures mx.sqrt(0.0) == 0.0
  {
    SqrtUnique(mx.sqrt(0.0), 0.0);
  }

  lemma SqrtPositive(mx: MathFns, x: real)
    requires Lawful(mx) && x > 0.0
    ensures mx.sqrt(x) > 0.0
  {
  }

  /** `sqrt(a * a * x) == a * sqrt(x)` for a non-negative scale `a`. */
  lemma SqrtScale(mx: MathFns, a: real, x: real, y: real)
    requires Lawful(mx) && a >= 0.0 && x >= 0.0 && y == a * a * x
    ensures mx.sqrt(y) == a * mx.sqrt(x)
  {
    var p := mx.sqrt(x);
    assert y >= 0.0;
    assert (a * p) * (a * p) == a * a * (p * p);
    SqrtUnique(mx.sqrt(y), a * p);
  }

  lemma NormNonNeg(mx: MathFns, v: seq<real>)
    requires Lawful(mx)
    ensures Norm(mx, v) >= 0.0
  {
  }

  lemma NormZeroIff(mx: MathFns, v: seq<real>)
    requires Lawful(mx)
    ensures Norm(mx, v) == 0.0 <==> AllZero(v)
  {
    SumSqZeroIff(v);
    SqrtZero(mx);
    if SumSq(v) > 0.0 {
      SqrtPositive(mx, SumSq(v));
    }
  }

  lemma NormScale(mx: MathFns, a: real, v: seq<real>)
    requires Lawful(mx) && a >= 0.0
    ensures Norm(mx, Scale(a, v)) == a * Norm(mx, v)
  {
    var q, r := SumSq(v), SumSq(Scale(a, v));
    SumSqScale(v, a);
    assert r == a * a * q;
    SqrtScale(mx, a, q, r);
  }

  /** Negating a vector keeps its norm. */
  lemma NormNegated(mx: MathFns, v: seq<real>)
    ensures Norm(mx, Scale(-1.0, v)) == Norm(mx, v)
  {
    SumSqScale(v, -1.0);
  }

  lemma MeanAffine(s: seq<real>, a: real, b: real)
    requires |s| > 0
    ensures Mean(Affine(s, a, b)) == a * Mean(s) + b
  {
    SumAffine(s, a, b);
    var n := |s| as real;
    assert (a * Sum(s) + n * b) / n == a * (Sum(s) / n) + b;
  }

  lemma MeanNonNeg(s: seq<real>)
    requires forall i :: 0 <= i < |s| ==> s[i] >= 0.0
    ensures Mean(s) >= 0.0
  {
    SumNonNeg(s);
  }

  /** Rescaling a vector by `a` rescales its variance by `a * a`. */
  lemma VarianceScale(s: seq<real>, a: real)
    ensures Variance(Scale(a, s)) == a * a * Variance(s)
  {
    if |s| > 0 {
      var n := |s| as real;
      var c, d := Centered(s), Centered(Scale(a, s));
      CenteredScale(s, a);
      SumSqScale(c, a);
      var k, x := a * a, SumSq(c);
      assert SumSq(d) == k * x;
      DivScaled(k, x, n);
      assert Variance(Scale(a, s)) == (k * x) / n;
      assert Variance(s) == x / n;
    }
  }

  /** Centering commutes with rescaling. */
  lemma CenteredScale(s: seq<real>, a: real)
    ensures Centered(Scale(a, s)) == Scale(a, Centered(s))
  {
    if |s| > 0 {
      assert Scale(a, s) == Affine(s, a, 0.0);
      MeanAffine(s, a, 0.0);
      var c, d := Centered(s), Centered(Scale(a, s));
      forall i | 0 <= i < |s| ensures d[i] == Scale(a, c)[i] {
        assert d[i] == a * s[i] + -(a * Mean(s));
        assert Scale(a, c)[i] == a * (s[i] + -Mean(s));
      }
    }
  }

  /** A vector has zero variance exactly when all its entries are equal. */
  lemma VarianceZeroIff(s: seq<real>)
    ensures Variance(s) == 0.0 <==> AllEqual(s)
  {
    if |s| > 0 {
      var n := |s| as real;
      var c := Centered(s);
      SumSqZeroIff(c);
      if AllEqual(s) {
        assert s == Affine(s, 0.0, s[0]);
        MeanAffine(s, 0.0, s[0]);
        forall i | 0 <= i < |s| ensures c[i] == 0.0 {
          assert c[i] == 1.0 * s[i] + -Mean(s);
        }
      }
      if Variance(s) == 0.0 {
        assert SumSq(c) == 0.0;
        forall i, j | 0 <= i < |s| && 0 <= j < |s| ensures s[i] == s[j] {
          assert c[i] == 1.0 * s[i] + -Mean(s);
          assert c[j] == 1.0 * s[j] + -Mean(s);
        }
      }
    }
  }

  /** Rescaling a vector by a non-negative `a` rescales its standard deviation by `a`. */
  lemma StdScale(mx: MathFns, a: real, s: seq<real>)
    requires Lawful(mx) && a >= 0.0
    ensures Std(mx, Scale(a, s)) == a * Std(mx, s)
  {
    var q, r := Variance(s), Variance(Scale(a, s));
    VarianceScale(s, a);
    VarianceNonNeg(s);
    SqrtScale(mx, a, q, r);
  }

  lemma VarianceNonNeg(s: seq<real>)
    ensures Variance(s) >= 0.0
  {
  }

  lemma StdNonNeg(mx: MathFns, s: seq<real>)
    requires Lawful(mx)
    ensures Std(mx, s) >= 0.0
  {
    VarianceNonNeg(s);
  }
}
